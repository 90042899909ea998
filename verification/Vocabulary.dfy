// Compaction of a sparse vocabulary: raw dimensions are replaced by their rank
// among the dimensions that occur in documents.
//
// Source: tools/spectra/prepare_beir_fastembed.py
module Vocabulary {
  import opened Common
  import opened Sorting

  datatype Term = Term(index: nat, value: real)

  // A sparse vector; an index may in principle repeat.
  type Vector = seq<Term>

  // ---------------------------------------------------------------------
  // Dot product: every pair of terms with the same index contributes

  function Pair(t: Term, x: Term): real {
    if x.index == t.index then t.value * x.value else 0.0
  }

  function Against(t: Term, d: Vector): real {
    if d == [] then 0.0 else Pair(t, d[0]) + Against(t, d[1..])
  }

  function Dot(q: Vector, d: Vector): real {
    if q == [] then 0.0 else Against(q[0], d) + Dot(q[1..], d)
  }

  // Single terms multiply if they share the index, and the product is additive on
  // both sides: that is all there is to it.
  lemma DotOfTerms(t: Term, x: Term)
    ensures Dot([t], [x]) == if t.index == x.index then t.value * x.value else 0.0
    ensures Dot([], [x]) == 0.0 == Dot([t], [])
  {
    assert [t][1..] == [] && [x][1..] == [];
    assert Dot([t], [x]) == Against(t, [x]) + Dot([], [x]);
    assert Against(t, [x]) == Pair(t, x) + Against(t, []);
  }

  lemma {:induction false} DotAddsLeft(p: Vector, q: Vector, d: Vector)
    ensures Dot(p + q, d) == Dot(p, d) + Dot(q, d)
    decreases |p|
  {
    if p == [] {
      assert p + q == q;
    } else {
      DotAddsLeft(p[1..], q, d);
      assert (p + q)[1..] == p[1..] + q;
    }
  }

  lemma {:induction false} AgainstAdds(t: Term, d: Vector, e: Vector)
    ensures Against(t, d + e) == Against(t, d) + Against(t, e)
    decreases |d|
  {
    if d == [] {
      assert d + e == e;
    } else {
      AgainstAdds(t, d[1..], e);
      assert (d + e)[1..] == d[1..] + e;
    }
  }

  lemma {:induction false} DotAddsRight(q: Vector, d: Vector, e: Vector)
    ensures Dot(q, d + e) == Dot(q, d) + Dot(q, e)
    decreases |q|
  {
    if q != [] {
      DotAddsRight(q[1..], d, e);
      AgainstAdds(q[0], d, e);
    }
  }

  // ---------------------------------------------------------------------
  // Normalisation: zeros are dropped, the rest is sorted

  function NonZero(v: Vector): Vector {
    if v == [] then [] else if v[0].value == 0.0 then NonZero(v[1..]) else [v[0]] + NonZero(v[1..])
  }

  predicate NotAfter(a: Term, b: Term) {
    a.index < b.index || (a.index == b.index && a.value <= b.value)
  }

  function InsertTerm(v: Vector, t: Term): Vector {
    if v == [] || NotAfter(t, v[0]) then [t] + v else [v[0]] + InsertTerm(v[1..], t)
  }

  function SortTerms(v: Vector): Vector {
    if v == [] then [] else InsertTerm(SortTerms(v[1..]), v[0])
  }

  // A negative impact is an error; the two lists must be equally long.
  function Normalized(indices: seq<nat>, values: seq<real>): (r: Result<Vector, ()>)
    ensures r.Err? <==> |indices| != |values| || exists i :: 0 <= i < |values| && values[i] < 0.0
  {
    if |indices| != |values| then Err(()) else
    if exists i :: 0 <= i < |values| && values[i] < 0.0 then Err(()) else
    Ok(SortTerms(NonZero(Zip(indices, values))))
  }

  function Zip(indices: seq<nat>, values: seq<real>): Vector
    requires |indices| == |values|
  {
    seq(|indices|, i requires 0 <= i < |indices| => Term(indices[i], values[i]))
  }

  ghost predicate Ordered(v: Vector) {
    forall i, j :: 0 <= i < j < |v| ==> v[i].index <= v[j].index
  }

  // No two terms share an index, and the indices grow.
  ghost predicate StrictlyOrdered(v: Vector) {
    forall i, j :: 0 <= i < j < |v| ==> v[i].index < v[j].index
  }

  ghost predicate UniqueIndices(v: Vector) {
    forall i, j :: 0 <= i < j < |v| ==> v[i].index != v[j].index
  }

  // What normalisation keeps of a vector: the dot product with any other, on
  // either side.
  ghost predicate SameDot(v: Vector, w: Vector) {
    forall t :: Against(t, v) == Against(t, w)
  }

  lemma {:induction false} NonZeroKeeps(v: Vector, t: Term, d: Vector)
    ensures Against(t, NonZero(v)) == Against(t, v)
    ensures Dot(NonZero(v), d) == Dot(v, d)
    decreases |v|
  {
    if v != [] {
      NonZeroKeeps(v[1..], t, d);
      if v[0].value == 0.0 { ZeroAgainst(v[0], d); }
    }
  }

  lemma {:induction false} ZeroAgainst(t: Term, d: Vector)
    requires t.value == 0.0
    ensures Against(t, d) == 0.0
    decreases |d|
  {
    if d != [] { ZeroAgainst(t, d[1..]); }
  }

  lemma ConsAgainst(x: Term, v: Vector, t: Term)
    ensures Against(t, [x] + v) == Pair(t, x) + Against(t, v)
  {
    assert ([x] + v)[1..] == v;
  }

  lemma ConsDot(x: Term, v: Vector, d: Vector)
    ensures Dot([x] + v, d) == Against(x, d) + Dot(v, d)
  {
    assert ([x] + v)[1..] == v;
  }

  lemma {:induction false} InsertKeepsAgainst(v: Vector, x: Term, t: Term)
    ensures Against(t, InsertTerm(v, x)) == Against(t, [x] + v)
    decreases |v|
  {
    if v != [] && !NotAfter(x, v[0]) {
      var rest := v[1..];
      InsertKeepsAgainst(rest, x, t);
      ConsAgainst(x, v, t);
      ConsAgainst(x, rest, t);
      ConsAgainst(v[0], InsertTerm(rest, x), t);
    }
  }

  lemma {:induction false} InsertKeepsDot(v: Vector, x: Term, d: Vector)
    ensures Dot(InsertTerm(v, x), d) == Dot([x] + v, d)
    decreases |v|
  {
    if v != [] && !NotAfter(x, v[0]) {
      var rest := v[1..];
      InsertKeepsDot(rest, x, d);
      ConsDot(x, v, d);
      ConsDot(x, rest, d);
      ConsDot(v[0], InsertTerm(rest, x), d);
    }
  }

  lemma {:induction false} SortKeeps(v: Vector, t: Term, d: Vector)
    ensures Against(t, SortTerms(v)) == Against(t, v)
    ensures Dot(SortTerms(v), d) == Dot(v, d)
    decreases |v|
  {
    if v != [] {
      var x, rest := v[0], v[1..];
      assert v == [x] + rest;
      SortKeeps(rest, t, d);
      SortStepAgainst(x, rest, t);
      SortStepDot(x, rest, d);
    }
  }

  lemma SortStepAgainst(x: Term, rest: Vector, t: Term)
    requires Against(t, SortTerms(rest)) == Against(t, rest)
    ensures Against(t, InsertTerm(SortTerms(rest), x)) == Against(t, [x] + rest)
  {
    InsertKeepsAgainst(SortTerms(rest), x, t);
    ConsAgainst(x, SortTerms(rest), t);
    ConsAgainst(x, rest, t);
  }

  lemma SortStepDot(x: Term, rest: Vector, d: Vector)
    requires Dot(SortTerms(rest), d) == Dot(rest, d)
    ensures Dot(InsertTerm(SortTerms(rest), x), d) == Dot([x] + rest, d)
  {
    InsertKeepsDot(SortTerms(rest), x, d);
    ConsDot(x, SortTerms(rest), d);
    ConsDot(x, rest, d);
  }

  lemma {:induction false} DotRight(q: Vector, v: Vector, w: Vector)
    requires SameDot(v, w)
    ensures Dot(q, v) == Dot(q, w)
    decreases |q|
  {
    if q != [] { DotRight(q[1..], v, w); }
  }

  // Normalising both vectors leaves their dot product as it was.
  lemma NormalisationKeepsDot(q: Vector, d: Vector)
    ensures Dot(SortTerms(NonZero(q)), SortTerms(NonZero(d))) == Dot(q, d)
  {
    var nq, nd := NonZero(q), NonZero(d);
    forall t ensures Against(t, SortTerms(nd)) == Against(t, d) {
      SortKeeps(nd, t, d);
      NonZeroKeeps(d, t, d);
    }
    DotRight(SortTerms(nq), SortTerms(nd), d);
    SortKeeps(nq, Term(0, 0.0), d);
    NonZeroKeeps(q, Term(0, 0.0), d);
  }

  // ---------------------------------------------------------------------
  // Order of a normalised vector

  ghost predicate HasIndex(v: Vector, x: nat) {
    exists i :: 0 <= i < |v| && v[i].index == x
  }

  lemma {:induction false} InsertOrders(v: Vector, t: Term)
    requires Ordered(v)
    ensures Ordered(InsertTerm(v, t))
    ensures forall x :: HasIndex(InsertTerm(v, t), x) ==> x == t.index || HasIndex(v, x)
    ensures StrictlyOrdered(v) && !HasIndex(v, t.index) ==> StrictlyOrdered(InsertTerm(v, t))
    decreases |v|
  {
    if v != [] && !NotAfter(t, v[0]) {
      var rest, r := v[1..], InsertTerm(v[1..], t);
      InsertOrders(rest, t);
      TailIndices(v);
      assert HasIndex(v, v[0].index);
      forall k | 0 <= k < |r| ensures v[0].index <= r[k].index {
        assert HasIndex(r, r[k].index);
      }
      if StrictlyOrdered(v) && !HasIndex(v, t.index) {
        forall k | 0 <= k < |r| ensures v[0].index < r[k].index {
          assert HasIndex(r, r[k].index);
        }
        ConsOrdered(v[0], r);
      }
      ConsIndices(v[0], r, v, t.index);
    }
  }

  lemma TailIndices(v: Vector)
    requires v != []
    ensures forall x :: HasIndex(v[1..], x) ==> HasIndex(v, x)
    ensures Ordered(v) ==> forall x :: HasIndex(v[1..], x) ==> v[0].index <= x
    ensures StrictlyOrdered(v) ==> forall x :: HasIndex(v[1..], x) ==> v[0].index < x
  {
    forall x | HasIndex(v[1..], x) ensures exists i :: 0 < i < |v| && v[i].index == x {
      var i :| 0 <= i < |v[1..]| && v[1..][i].index == x;
      assert v[i + 1].index == x;
    }
  }

  lemma ConsIndices(h: Term, r: Vector, v: Vector, t: nat)
    requires v != [] && v[0] == h
    requires forall x :: HasIndex(r, x) ==> x == t || HasIndex(v, x)
    ensures forall x :: HasIndex([h] + r, x) ==> x == t || HasIndex(v, x)
  {
    var w := [h] + r;
    forall x | HasIndex(w, x) ensures x == t || HasIndex(v, x) {
      var i :| 0 <= i < |w| && w[i].index == x;
      if i > 0 { assert r[i - 1].index == x; assert HasIndex(r, x); } else { assert HasIndex(v, x); }
    }
  }

  lemma {:induction false} SortOrders(v: Vector)
    ensures Ordered(SortTerms(v))
    ensures forall x :: HasIndex(SortTerms(v), x) ==> HasIndex(v, x)
    ensures UniqueIndices(v) ==> StrictlyOrdered(SortTerms(v))
    decreases |v|
  {
    if v != [] {
      SortOrders(v[1..]);
      InsertOrders(SortTerms(v[1..]), v[0]);
      TailIndices(v);
      assert HasIndex(v, v[0].index);
      assert UniqueIndices(v) ==> UniqueIndices(v[1..]) && !HasIndex(v[1..], v[0].index);
    }
  }

  lemma {:induction false} NonZeroUnique(v: Vector)
    requires UniqueIndices(v)
    ensures UniqueIndices(NonZero(v)) && forall x :: HasIndex(NonZero(v), x) ==> HasIndex(v, x)
    decreases |v|
  {
    if v != [] {
      var tail, r := v[1..], NonZero(v[1..]);
      NonZeroUnique(tail);
      assert forall x :: HasIndex(r, x) ==> HasIndex(v, x) by { TailIndices(v); }
      if v[0].value != 0.0 {
        assert !HasIndex(r, v[0].index) by { HeadIsNew(v); }
        ConsUnique(v[0], r);
        ConsIndices(v[0], r, v, v[0].index);
      }
    }
  }

  lemma HeadIsNew(v: Vector)
    requires UniqueIndices(v) && v != []
    ensures !HasIndex(v[1..], v[0].index)
  {
    assert forall i :: 0 <= i < |v[1..]| ==> v[1..][i] == v[i + 1];
  }

  lemma ConsUnique(x: Term, v: Vector)
    requires UniqueIndices(v) && !HasIndex(v, x.index)
    ensures UniqueIndices([x] + v)
  {
    assert forall k :: 0 <= k < |v| ==> HasIndex(v, v[k].index);
  }

  // A normalised vector with unique indices is strictly ordered.
  lemma NormalizedIsOrdered(indices: seq<nat>, values: seq<real>)
    requires Normalized(indices, values).Ok? && Distinct(indices)
    ensures StrictlyOrdered(Normalized(indices, values).value)
  {
    var v := Zip(indices, values);
    assert UniqueIndices(v);
    NonZeroUnique(v);
    SortOrders(NonZero(v));
  }

  lemma {:induction false} InsertTerms(v: Vector, t: Term)
    requires Lexical(v)
    ensures Lexical(InsertTerm(v, t)) && multiset(InsertTerm(v, t)) == multiset(v) + multiset{t}
    decreases |v|
  {
    if v != [] && !NotAfter(t, v[0]) {
      var rest := v[1..];
      InsertTerms(rest, t);
      assert v == [v[0]] + rest;
      forall x | x in multiset(rest) + multiset{t} ensures LexicalPair(v[0], x) {
        assert x == t || x in rest;
      }
      ConsLexical(v[0], InsertTerm(rest, t));
    } else {
      forall x | x in multiset(v) ensures LexicalPair(t, x) {
        assert x in v;
      }
      ConsLexical(t, v);
    }
  }

  lemma ConsLexical(t: Term, v: Vector)
    requires Lexical(v) && forall x :: x in multiset(v) ==> LexicalPair(t, x)
    ensures Lexical([t] + v)
  {
    assert forall k :: 0 <= k < |v| ==> v[k] in multiset(v);
  }

  ghost predicate LexicalPair(a: Term, b: Term) {
    a.index < b.index || (a.index == b.index && a.value <= b.value)
  }

  // By index, then by value.
  ghost predicate Lexical(v: Vector) {
    forall i, j :: 0 <= i < j < |v| ==> LexicalPair(v[i], v[j])
  }

  lemma {:induction false} SortedTerms(v: Vector)
    ensures Lexical(SortTerms(v)) && multiset(SortTerms(v)) == multiset(v)
    decreases |v|
  {
    if v != [] {
      SortedTerms(v[1..]);
      InsertTerms(SortTerms(v[1..]), v[0]);
      assert v == [v[0]] + v[1..];
    }
  }

  lemma {:induction false} NonZeroTerms(v: Vector, t: Term)
    ensures multiset(NonZero(v))[t] == if t.value == 0.0 then 0 else multiset(v)[t]
    decreases |v|
  {
    if v != [] {
      NonZeroTerms(v[1..], t);
      assert v == [v[0]] + v[1..];
    }
  }

  // A normalised vector holds the given terms other than zero, as often as given, by
  // index and then by value.
  lemma NormalizedTerms(indices: seq<nat>, values: seq<real>, given: Vector, t: Term)
    requires Normalized(indices, values).Ok?
    requires |given| == |indices| == |values|
    requires forall i :: 0 <= i < |given| ==> given[i] == Term(indices[i], values[i])
    ensures
      var v := Normalized(indices, values).value;
      Lexical(v) && multiset(v)[t] == if t.value == 0.0 then 0 else multiset(given)[t]
  {
    assert Zip(indices, values) == given;
    SortedTerms(NonZero(given));
    NonZeroTerms(given, t);
  }

  // ---------------------------------------------------------------------
  // Compaction

  ghost predicate Occurs(documents: seq<Vector>, x: nat) {
    exists i :: 0 <= i < |documents| && HasIndex(documents[i], x)
  }

  // The vocabulary lists the dimensions that occur, in increasing order, and
  // the mapping takes each to its place there.
  ghost predicate IsCompaction(documents: seq<Vector>, vocabulary: seq<nat>, mapping: map<nat, nat>) {
    && Increasing(vocabulary)
    && (forall x :: x in mapping <==> Occurs(documents, x))
    && (forall x :: x in mapping ==> mapping[x] < |vocabulary| && vocabulary[mapping[x]] == x)
    && (forall i :: 0 <= i < |vocabulary| ==> vocabulary[i] in mapping && mapping[vocabulary[i]] == i)
  }

  // How many of the first n terms have the index.
  ghost function Terms(d: Vector, n: nat, x: nat): nat
    requires n <= |d|
  {
    if n == 0 then 0 else Terms(d, n - 1, x) + if d[n - 1].index == x then 1 else 0
  }

  // How many terms of the first n documents have it.
  ghost function Uses(documents: seq<Vector>, n: nat, x: nat): nat
    requires n <= |documents|
  {
    if n == 0 then 0 else Uses(documents, n - 1, x) + Terms(documents[n - 1], |documents[n - 1]|, x)
  }

  // With unique indices that is the number of documents that have it.
  lemma {:induction false} UniqueTerms(d: Vector, n: nat, x: nat)
    requires n <= |d| && UniqueIndices(d)
    ensures Terms(d, n, x) == if HasIndex(d[..n], x) then 1 else 0
  {
    if n > 0 {
      UniqueTerms(d, n - 1, x);
      SnocIndices(d, n - 1);
      assert d[n - 1].index == x ==> !HasIndex(d[..n - 1], x);
    }
  }

  // Counts, for each dimension, the terms that use it.
  method DocumentFrequency(documents: seq<Vector>) returns (frequency: map<nat, nat>)
    ensures forall x :: x in frequency <==> Occurs(documents, x)
    ensures forall x :: x in frequency ==> frequency[x] == Uses(documents, |documents|, x) > 0
  {
    frequency := map[];
    for i := 0 to |documents|
      invariant forall x :: x in frequency <==> Occurs(documents[..i], x)
      invariant forall x :: x in frequency <==> Uses(documents, i, x) > 0
      invariant forall x :: x in frequency ==> frequency[x] == Uses(documents, i, x)
    {
      frequency := CountTerms(frequency, documents[i]);
      SnocOccurs(documents, i);
    }
    assert documents[..|documents|] == documents;
  }

  method CountTerms(before: map<nat, nat>, d: Vector) returns (frequency: map<nat, nat>)
    ensures forall x :: x in frequency <==> x in before || HasIndex(d, x)
    ensures forall x :: x in frequency <==> x in before || Terms(d, |d|, x) > 0
    ensures forall x :: x in frequency ==> frequency[x] == (if x in before then before[x] else 0) + Terms(d, |d|, x)
  {
    frequency := before;
    for j := 0 to |d|
      invariant forall x :: x in frequency <==> x in before || HasIndex(d[..j], x)
      invariant forall x :: x in frequency <==> x in before || Terms(d, j, x) > 0
      invariant forall x :: x in frequency ==> frequency[x] == (if x in before then before[x] else 0) + Terms(d, j, x)
    {
      var x := d[j].index;
      SnocIndices(d, j);
      frequency := frequency[x := (if x in frequency then frequency[x] else 0) + 1];
    }
    assert d[..|d|] == d;
  }

  lemma SnocIndices(d: Vector, j: nat)
    requires j < |d|
    ensures forall x :: HasIndex(d[..j + 1], x) <==> HasIndex(d[..j], x) || x == d[j].index
  {
    assert d[..j + 1][j] == d[j];
    forall x | HasIndex(d[..j], x) ensures HasIndex(d[..j + 1], x) {
      var i :| 0 <= i < j && d[..j][i].index == x;
      assert d[..j + 1][i].index == x;
    }
    forall x | HasIndex(d[..j + 1], x) && x != d[j].index ensures HasIndex(d[..j], x) {
      var i :| 0 <= i < j + 1 && d[..j + 1][i].index == x;
      assert d[..j][i].index == x;
    }
  }

  lemma SnocOccurs(documents: seq<Vector>, i: nat)
    requires i < |documents|
    ensures forall x :: Occurs(documents[..i + 1], x) <==> Occurs(documents[..i], x) || HasIndex(documents[i], x)
  {
    var longer := documents[..i + 1];
    assert longer[i] == documents[i];
    forall x | Occurs(documents[..i], x) ensures Occurs(longer, x) {
      var k :| 0 <= k < i && HasIndex(documents[..i][k], x);
      assert longer[k] == documents[..i][k];
    }
    forall x | Occurs(longer, x) && !HasIndex(documents[i], x) ensures Occurs(documents[..i], x) {
      var k :| 0 <= k < i + 1 && HasIndex(longer[k], x);
      assert documents[..i][k] == longer[k];
    }
  }

  method Compact(documents: seq<Vector>) returns (vocabulary: seq<nat>, mapping: map<nat, nat>)
    ensures IsCompaction(documents, vocabulary, mapping)
  {
    var frequency := DocumentFrequency(documents);
    vocabulary := List(frequency.Keys);
    mapping := map[];
    for i := 0 to |vocabulary|
      invariant forall x :: x in mapping <==> x in vocabulary[..i]
      invariant forall x :: x in mapping ==> mapping[x] < i && vocabulary[mapping[x]] == x
      invariant forall k :: 0 <= k < i ==> vocabulary[k] in mapping && mapping[vocabulary[k]] == k
    {
      assert vocabulary[..i + 1] == vocabulary[..i] + [vocabulary[i]];
      mapping := mapping[vocabulary[i] := i];
    }
    assert vocabulary[..|vocabulary|] == vocabulary;
  }

  // Replaces every index; terms outside the vocabulary are dropped.
  function Remap(v: Vector, mapping: map<nat, nat>): Vector {
    if v == [] then [] else
    if v[0].index in mapping then [Term(mapping[v[0].index], v[0].value)] + Remap(v[1..], mapping)
    else Remap(v[1..], mapping)
  }

  // The image under the mapping of a term that has one.
  ghost predicate IsImage(v: Vector, mapping: map<nat, nat>, t: Term) {
    exists i :: 0 <= i < |v| && v[i].index in mapping && t == Term(mapping[v[i].index], v[i].value)
  }

  lemma {:induction false} RemapImages(v: Vector, mapping: map<nat, nat>)
    ensures forall t :: t in Remap(v, mapping) <==> IsImage(v, mapping, t)
    decreases |v|
  {
    if v != [] {
      RemapImages(v[1..], mapping);
      forall t
        ensures IsImage(v, mapping, t) <==>
          || IsImage(v[1..], mapping, t)
          || (v[0].index in mapping && t == Term(mapping[v[0].index], v[0].value))
      {
        TailImages(v, mapping, t);
      }
    }
  }

  lemma TailImages(v: Vector, mapping: map<nat, nat>, t: Term)
    requires v != []
    ensures IsImage(v, mapping, t) <==>
      || IsImage(v[1..], mapping, t)
      || (v[0].index in mapping && t == Term(mapping[v[0].index], v[0].value))
  {
    var tail := v[1..];
    if IsImage(tail, mapping, t) {
      var i :| 0 <= i < |tail| && tail[i].index in mapping && t == Term(mapping[tail[i].index], tail[i].value);
      assert v[i + 1] == tail[i];
    }
    if IsImage(v, mapping, t) {
      var i :| 0 <= i < |v| && v[i].index in mapping && t == Term(mapping[v[i].index], v[i].value);
      assert i > 0 ==> tail[i - 1] == v[i];
    }
  }

  lemma MappingMonotone(documents: seq<Vector>, vocabulary: seq<nat>, mapping: map<nat, nat>, x: nat, y: nat)
    requires IsCompaction(documents, vocabulary, mapping) && x in mapping && y in mapping
    ensures x < y <==> mapping[x] < mapping[y]
    ensures x == y <==> mapping[x] == mapping[y]
  {
    assert vocabulary[mapping[x]] == x && vocabulary[mapping[y]] == y;
  }

  // Remapped indices stay strictly increasing and below the vocabulary size.
  lemma {:induction false} RemapOrdered(documents: seq<Vector>, vocabulary: seq<nat>, mapping: map<nat, nat>, v: Vector)
    requires IsCompaction(documents, vocabulary, mapping) && StrictlyOrdered(v)
    ensures StrictlyOrdered(Remap(v, mapping))
    ensures forall k :: 0 <= k < |Remap(v, mapping)| ==> Remap(v, mapping)[k].index < |vocabulary|
    decreases |v|
  {
    if v != [] {
      RemapOrdered(documents, vocabulary, mapping, v[1..]);
      var rest := Remap(v[1..], mapping);
      if v[0].index in mapping {
        forall k | 0 <= k < |rest| ensures mapping[v[0].index] < rest[k].index {
          RemapLater(documents, vocabulary, mapping, v, k);
        }
        ConsOrdered(Term(mapping[v[0].index], v[0].value), rest);
      }
    }
  }

  lemma RemapLater(documents: seq<Vector>, vocabulary: seq<nat>, mapping: map<nat, nat>, v: Vector, k: nat)
    requires IsCompaction(documents, vocabulary, mapping) && StrictlyOrdered(v) && v != [] && v[0].index in mapping
    requires k < |Remap(v[1..], mapping)|
    ensures mapping[v[0].index] < Remap(v[1..], mapping)[k].index
  {
    var tail, rest := v[1..], Remap(v[1..], mapping);
    RemapImages(tail, mapping);
    assert rest[k] in rest;
    assert IsImage(tail, mapping, rest[k]);
    var i :| 0 <= i < |tail| && tail[i].index in mapping && rest[k] == Term(mapping[tail[i].index], tail[i].value);
    assert tail[i] == v[i + 1];
    MappingMonotone(documents, vocabulary, mapping, v[0].index, tail[i].index);
  }

  lemma ConsOrdered(x: Term, v: Vector)
    requires StrictlyOrdered(v) && forall k :: 0 <= k < |v| ==> x.index < v[k].index
    ensures StrictlyOrdered([x] + v)
  {
  }

  ghost predicate InVocabulary(d: Vector, mapping: map<nat, nat>) {
    forall i :: 0 <= i < |d| ==> d[i].index in mapping
  }

  lemma {:induction false} AgainstRemapped(documents: seq<Vector>, vocabulary: seq<nat>, mapping: map<nat, nat>,
                                           t: Term, d: Vector)
    requires IsCompaction(documents, vocabulary, mapping) && InVocabulary(d, mapping)
    ensures t.index in mapping ==> Against(Term(mapping[t.index], t.value), Remap(d, mapping)) == Against(t, d)
    ensures t.index !in mapping ==> Against(t, d) == 0.0
    decreases |d|
  {
    if d != [] {
      AgainstRemapped(documents, vocabulary, mapping, t, d[1..]);
      if t.index in mapping {
        MappingMonotone(documents, vocabulary, mapping, t.index, d[0].index);
        var head := Term(mapping[d[0].index], d[0].value);
        assert Remap(d, mapping) == [head] + Remap(d[1..], mapping);
        assert ([head] + Remap(d[1..], mapping))[1..] == Remap(d[1..], mapping);
      }
    }
  }

  lemma {:induction false} DotRemapped(documents: seq<Vector>, vocabulary: seq<nat>, mapping: map<nat, nat>,
                                       q: Vector, d: Vector)
    requires IsCompaction(documents, vocabulary, mapping) && InVocabulary(d, mapping)
    ensures Dot(Remap(q, mapping), Remap(d, mapping)) == Dot(q, d)
    decreases |q|
  {
    if q != [] {
      DotRemapped(documents, vocabulary, mapping, q[1..], d);
      AgainstRemapped(documents, vocabulary, mapping, q[0], d);
      if q[0].index in mapping {
        var head := Term(mapping[q[0].index], q[0].value);
        assert ([head] + Remap(q[1..], mapping))[1..] == Remap(q[1..], mapping);
      }
    }
  }

  // Compaction changes no score: any query against any document of the corpus,
  // although query terms that no document uses are dropped.
  lemma CompactionKeepsScores(documents: seq<Vector>, vocabulary: seq<nat>, mapping: map<nat, nat>, q: Vector, i: nat)
    requires IsCompaction(documents, vocabulary, mapping) && i < |documents|
    ensures Dot(Remap(q, mapping), Remap(documents[i], mapping)) == Dot(q, documents[i])
  {
    var d := documents[i];
    forall k | 0 <= k < |d| ensures d[k].index in mapping {
      assert HasIndex(d, d[k].index);
      assert Occurs(documents, d[k].index);
    }
    DotRemapped(documents, vocabulary, mapping, q, d);
  }
}
