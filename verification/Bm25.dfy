// BM25 embeddings of queries and documents.
//
// Weights are reals. The token hash is a parameter and may collide.
//
// Source: lib/bm25/src/lib.rs
module Bm25 {
  import opened Common
  import opened Sorting

  datatype Params = Params(k1: real, b: real, avgDocLen: real)

  datatype ParamError = InvalidK1(value: real) | InvalidB(value: real) | InvalidAvgDocLen(value: real)

  predicate Valid(p: Params) {
    p.k1 >= 0.0 && 0.0 <= p.b <= 1.0 && p.avgDocLen > 0.0
  }

  // Reports the first parameter that is out of range.
  function Validate(p: Params): (r: Result<(), ParamError>)
    ensures r.Ok? <==> Valid(p)
    ensures r.Err? ==> match r.error
      case InvalidK1(value) => value == p.k1 < 0.0
      case InvalidB(value) => value == p.b && !(0.0 <= p.b <= 1.0) && p.k1 >= 0.0
      case InvalidAvgDocLen(value) => value == p.avgDocLen <= 0.0 && 0.0 <= p.b <= 1.0 && p.k1 >= 0.0
  {
    if p.k1 < 0.0 then Err(InvalidK1(p.k1))
    else if !(0.0 <= p.b <= 1.0) then Err(InvalidB(p.b))
    else if p.avgDocLen <= 0.0 then Err(InvalidAvgDocLen(p.avgDocLen))
    else Ok(())
  }

  datatype Embedding = Embedding(indices: seq<nat>, values: seq<real>)

  // ---------------------------------------------------------------------
  // The weight of a term

  function LengthNorm(p: Params, docLen: nat): real
    requires Valid(p)
  {
    1.0 - p.b + p.b * docLen as real / p.avgDocLen
  }

  lemma LengthNormPositive(p: Params, docLen: nat)
    requires Valid(p) && docLen > 0
    ensures LengthNorm(p, docLen) > 0.0
  {
    var share := p.b * docLen as real / p.avgDocLen;
    QuotientSign(p.b * docLen as real, p.avgDocLen);
    if p.b < 1.0 {
      ProductSign(p.b, docLen as real);
      assert share >= 0.0;
    } else {
      assert p.b * docLen as real == docLen as real;
      assert share > 0.0;
    }
  }

  lemma ProductSign(x: real, y: real)
    requires x >= 0.0 && y >= 0.0
    ensures x * y >= 0.0
    ensures x > 0.0 && y > 0.0 ==> x * y > 0.0
  {
  }

  lemma QuotientSign(x: real, y: real)
    requires y > 0.0
    ensures x >= 0.0 ==> x / y >= 0.0
    ensures x > 0.0 ==> x / y > 0.0
  {
    var q := x / y;
    assert q * y == x;
    assert q < 0.0 ==> (-q) * y > 0.0;
  }

  function Denominator(p: Params, count: nat, docLen: nat): real
    requires Valid(p)
  {
    p.k1 * LengthNorm(p, docLen) + count as real
  }

  lemma DenominatorBounds(p: Params, count: nat, docLen: nat)
    requires Valid(p) && 0 < count && 0 < docLen
    ensures Denominator(p, count, docLen) >= count as real
    ensures p.k1 > 0.0 ==> Denominator(p, count, docLen) > count as real
    ensures p.k1 == 0.0 ==> Denominator(p, count, docLen) == count as real
  {
    LengthNormPositive(p, docLen);
    ProductSign(p.k1, LengthNorm(p, docLen));
  }

  function Weight(p: Params, count: nat, docLen: nat): real
    requires Valid(p) && 0 < count && 0 < docLen
  {
    DenominatorBounds(p, count, docLen);
    count as real * (p.k1 + 1.0) / Denominator(p, count, docLen)
  }

  lemma TimesLess(a: real, b: real, c: real)
    requires a < b && 0.0 < c
    ensures a * c < b * c
  {
    ProductSign(b - a, c);
    assert (b - a) * c == b * c - a * c;
  }

  lemma Cancel(a: real, b: real, c: real)
    requires 0.0 < c && a * c < b * c
    ensures a < b
  {
    if b < a { TimesLess(b, a, c); }
  }

  lemma Below(x: real, d: real, y: real)
    requires 0.0 < d && x < y * d
    ensures x / d < y
  {
    var q := x / d;
    assert q * d == x;
    Cancel(q, y, d);
  }

  lemma Share(n: real, d: real, top: real)
    requires 0.0 < n <= d && 0.0 < top
    ensures 0.0 < n * top / d
    ensures n < d ==> n * top / d < top
    ensures n == d ==> n * top / d == top
  {
    ProductSign(n, top);
    QuotientSign(n * top, d);
    if n < d {
      TimesLess(n, d, top);
      Below(n * top, d, top);
    }
  }

  // More of the same against a fixed rest is a larger share.
  lemma ShareGrows(m: real, n: real, k: real, top: real)
    requires 0.0 < m < n && 0.0 < k && 0.0 < top
    ensures m * top / (k + m) < n * top / (k + n)
  {
    var x, y, b := m * top, n * top, n * top / (k + n);
    assert b * (k + n) == y;
    ProductSign(n - m, k);
    TimesLess(0.0, (n - m) * k, top);
    CrossTerms(m, n, k, top);
    assert x * (k + n) < y * (k + m);
    assert y * (k + m) == (b * (k + m)) * (k + n) by { Regroup(b, k + n, k + m); }
    Cancel(x, b * (k + m), k + n);
    Below(x, k + m, b);
  }

  lemma CrossTerms(m: real, n: real, k: real, top: real)
    ensures (n * top) * (k + m) - (m * top) * (k + n) == ((n - m) * k) * top
  {
  }

  lemma Regroup(a: real, b: real, c: real)
    ensures (a * b) * c == (a * c) * b
  {
  }

  // Every weight is positive and at most k1 + 1; it is k1 + 1 only without
  // saturation.
  lemma WeightBounds(p: Params, count: nat, docLen: nat)
    requires Valid(p) && 0 < count && 0 < docLen
    ensures 0.0 < Weight(p, count, docLen) <= p.k1 + 1.0
    ensures Weight(p, count, docLen) == p.k1 + 1.0 <==> p.k1 == 0.0
  {
    DenominatorBounds(p, count, docLen);
    var n, d, top := count as real, Denominator(p, count, docLen), p.k1 + 1.0;
    Share(n, d, top);
    assert Weight(p, count, docLen) == n * top / d;
    assert n == d || n < d;
  }

  // With saturation, more occurrences weigh more in a document of fixed length.
  lemma WeightGrows(p: Params, less: nat, more: nat, docLen: nat)
    requires Valid(p) && p.k1 > 0.0 && 0 < less < more && 0 < docLen
    ensures Weight(p, less, docLen) < Weight(p, more, docLen)
  {
    DenominatorBounds(p, less, docLen);
    DenominatorBounds(p, more, docLen);
    LengthNormPositive(p, docLen);
    ProductSign(p.k1, LengthNorm(p, docLen));
    ShareGrows(less as real, more as real, p.k1 * LengthNorm(p, docLen), p.k1 + 1.0);
  }

  lemma NormTimesAverage(p: Params, docLen: nat)
    requires Valid(p)
    ensures LengthNorm(p, docLen) * p.avgDocLen == (1.0 - p.b) * p.avgDocLen + p.b * docLen as real
  {
    var share := p.b * docLen as real / p.avgDocLen;
    assert share * p.avgDocLen == p.b * docLen as real;
  }

  lemma Scaled(w: real, d: real, x: real, avg: real)
    requires w * d == x
    ensures w * (d * avg) == x * avg
  {
  }

  // The weight without a division: occurrences saturate against k1 times the length
  // of the document, which b mixes with the average length.
  lemma WeightExactly(p: Params, count: nat, docLen: nat)
    requires Valid(p) && 0 < count && 0 < docLen
    ensures Weight(p, count, docLen)
            * (p.k1 * ((1.0 - p.b) * p.avgDocLen + p.b * docLen as real) + count as real * p.avgDocLen)
            == count as real * (p.k1 + 1.0) * p.avgDocLen
  {
    DenominatorBounds(p, count, docLen);
    NormTimesAverage(p, docLen);
    var w, d, norm := Weight(p, count, docLen), Denominator(p, count, docLen), LengthNorm(p, docLen);
    assert w * d == count as real * (p.k1 + 1.0);
    Scaled(w, d, count as real * (p.k1 + 1.0), p.avgDocLen);
    assert d * p.avgDocLen == p.k1 * (norm * p.avgDocLen) + count as real * p.avgDocLen;
  }

  lemma NormGrows(p: Params, shorter: nat, longer: nat)
    requires Valid(p) && p.b > 0.0 && shorter < longer
    ensures LengthNorm(p, shorter) < LengthNorm(p, longer)
  {
    NormTimesAverage(p, shorter);
    NormTimesAverage(p, longer);
    TimesLess(shorter as real, longer as real, p.b);
    Cancel(LengthNorm(p, shorter), LengthNorm(p, longer), p.avgDocLen);
  }

  lemma SmallerShare(x: real, d: real, e: real)
    requires 0.0 < x && 0.0 < d < e
    ensures x / e < x / d
  {
    var q := x / d;
    assert q * d == x;
    QuotientSign(x, d);
    TimesLess(d, e, q);
    Below(x, e, q);
  }

  lemma MoreOfIt(k: real, a: real, b: real, c: real)
    requires k > 0.0 && a < b
    ensures k * a + c < k * b + c
  {
    TimesLess(a, b, k);
  }

  lemma DenominatorGrows(p: Params, count: nat, shorter: nat, longer: nat)
    requires Valid(p) && p.k1 > 0.0 && p.b > 0.0 && 0 < count && 0 < shorter < longer
    ensures 0.0 < Denominator(p, count, shorter) < Denominator(p, count, longer)
  {
    DenominatorBounds(p, count, shorter);
    NormGrows(p, shorter, longer);
    MoreOfIt(p.k1, LengthNorm(p, shorter), LengthNorm(p, longer), count as real);
  }

  // With saturation and length normalisation, the same occurrences weigh less in a
  // longer document.
  lemma WeightFalls(p: Params, count: nat, shorter: nat, longer: nat)
    requires Valid(p) && p.k1 > 0.0 && p.b > 0.0 && 0 < count && 0 < shorter < longer
    ensures Weight(p, count, longer) < Weight(p, count, shorter)
  {
    var x := count as real * (p.k1 + 1.0);
    assert x > 0.0 by { ProductSign(count as real, p.k1 + 1.0); }
    DenominatorGrows(p, count, shorter, longer);
    SmallerShare(x, Denominator(p, count, shorter), Denominator(p, count, longer));
  }

  // ---------------------------------------------------------------------
  // Embeddings

  function Occurrences(tokens: seq<string>, t: string): nat {
    if tokens == [] then 0 else Occurrences(tokens[..|tokens| - 1], t) + if tokens[|tokens| - 1] == t then 1 else 0
  }

  lemma {:induction false} OccursIfListed(tokens: seq<string>, t: string)
    ensures Occurrences(tokens, t) > 0 <==> t in tokens
    decreases |tokens|
  {
    if tokens != [] {
      OccursIfListed(tokens[..|tokens| - 1], t);
      assert tokens == tokens[..|tokens| - 1] + [tokens[|tokens| - 1]];
    }
  }

  // The index list every embedding of the tokens has.
  ghost predicate IsIndexList(indices: seq<nat>, tokens: seq<string>, id: string -> nat) {
    Increasing(indices) && forall x :: x in indices <==> exists t :: t in tokens && id(t) == x
  }

  lemma IndexListIsUnique(a: seq<nat>, b: seq<nat>, tokens: seq<string>, id: string -> nat)
    requires IsIndexList(a, tokens, id) && IsIndexList(b, tokens, id)
    ensures a == b
  {
    IncreasingIsUnique(a, b);
  }

  // Sorts the token hashes and drops repetitions; every weight is one.
  method EmbedQuery(tokens: seq<string>, id: string -> nat) returns (e: Embedding)
    ensures IsIndexList(e.indices, tokens, id) && |e.values| == |e.indices|
    ensures forall i :: 0 <= i < |e.values| ==> e.values[i] == 1.0
  {
    var hashes := seq(|tokens|, i requires 0 <= i < |tokens| => id(tokens[i]));
    assert forall x :: x in hashes <==> exists t :: t in tokens && id(t) == x by {
      assert forall i :: 0 <= i < |tokens| ==> hashes[i] == id(tokens[i]);
      forall t | t in tokens ensures id(t) in hashes {
        var i :| 0 <= i < |tokens| && tokens[i] == t;
        assert hashes[i] == id(t);
      }
    }
    SortSorts(hashes);
    var indices := Dedup(Sort(hashes));
    e := Embedding(indices, seq(|indices|, _ => 1.0));
  }

  method CountTokens(tokens: seq<string>) returns (counter: map<string, nat>)
    ensures forall t :: t in counter <==> t in tokens
    ensures forall t :: t in counter ==> counter[t] == Occurrences(tokens, t)
  {
    counter := map[];
    for i := 0 to |tokens|
      invariant forall t :: t in counter <==> t in tokens[..i]
      invariant forall t :: t in counter ==> counter[t] == Occurrences(tokens[..i], t)
    {
      assert tokens[..i + 1] == tokens[..i] + [tokens[i]] && tokens[..i + 1][..i] == tokens[..i];
      OccursIfListed(tokens[..i], tokens[i]);
      counter := counter[tokens[i] := (if tokens[i] in counter then counter[tokens[i]] else 0) + 1];
    }
    assert tokens[..|tokens|] == tokens;
  }

  // The weight belongs to some token with that hash; of colliding tokens one
  // overwrites the others.
  ghost predicate IsWeightOf(p: Params, tokens: seq<string>, id: string -> nat, index: nat, value: real)
    requires Valid(p)
  {
    exists t :: t in tokens && id(t) == index && Occurrences(tokens, t) > 0
      && value == Weight(p, Occurrences(tokens, t), |tokens|)
  }

  method TermFrequency(p: Params, tokens: seq<string>, id: string -> nat) returns (tf: map<nat, real>)
    requires Valid(p)
    ensures forall x :: x in tf <==> exists t :: t in tokens && id(t) == x
    ensures forall x :: x in tf ==> IsWeightOf(p, tokens, id, x, tf[x])
  {
    var counter := CountTokens(tokens);
    tf := map[];
    var left := counter.Keys;
    while left != {}
      invariant left <= counter.Keys
      invariant forall x :: x in tf <==> exists t :: t in tokens && t !in left && id(t) == x
      invariant forall x :: x in tf ==> IsWeightOf(p, tokens, id, x, tf[x])
      decreases |left|
    {
      var t :| t in left;
      OccursIfListed(tokens, t);
      ghost var before, were := tf, left;
      tf := tf[id(t) := Weight(p, counter[t], |tokens|)];
      left := left - {t};
      assert IsWeightOf(p, tokens, id, id(t), tf[id(t)]);
      forall x ensures x in tf <==> exists u :: u in tokens && u !in left && id(u) == x {
        if x in before {
          var u :| u in tokens && u !in were && id(u) == x;
          assert u !in left;
        } else if x == id(t) {
          assert t in tokens && t !in left;
        }
      }
    }
  }

  // Counts the tokens and weighs each distinct one.
  method EmbedDocument(p: Params, tokens: seq<string>, id: string -> nat) returns (e: Embedding)
    requires Valid(p)
    ensures IsIndexList(e.indices, tokens, id) && |e.values| == |e.indices|
    ensures forall i :: 0 <= i < |e.values| ==> IsWeightOf(p, tokens, id, e.indices[i], e.values[i])
    ensures forall i :: 0 <= i < |e.values| ==> 0.0 < e.values[i] <= p.k1 + 1.0
    ensures forall i, t :: 0 <= i < |e.values| && id(t) == e.indices[i] && Alone(tokens, id, t) ==>
      Occurrences(tokens, t) > 0 && e.values[i] == Weight(p, Occurrences(tokens, t), |tokens|)
  {
    var tf := TermFrequency(p, tokens, id);
    var indices := List(tf.Keys);
    e := Embedding(indices, seq(|indices|, i requires 0 <= i < |indices| => tf[indices[i]]));
    forall i | 0 <= i < |e.values| ensures 0.0 < e.values[i] <= p.k1 + 1.0 {
      assert IsWeightOf(p, tokens, id, e.indices[i], e.values[i]);
      var t :| t in tokens && id(t) == e.indices[i] && Occurrences(tokens, t) > 0
        && e.values[i] == Weight(p, Occurrences(tokens, t), |tokens|);
      WeightBounds(p, Occurrences(tokens, t), |tokens|);
    }
    forall i, t | 0 <= i < |e.values| && id(t) == e.indices[i] && Alone(tokens, id, t)
      ensures Occurrences(tokens, t) > 0 && e.values[i] == Weight(p, Occurrences(tokens, t), |tokens|)
    {
      WithoutCollision(p, tokens, id, t, e.values[i]);
    }
  }

  // A query and a document with the same tokens get the same index list.
  method EmbedBoth(p: Params, tokens: seq<string>, id: string -> nat) returns (query: Embedding, document: Embedding)
    requires Valid(p)
    ensures query.indices == document.indices && Increasing(query.indices)
  {
    query := EmbedQuery(tokens, id);
    document := EmbedDocument(p, tokens, id);
    IndexListIsUnique(query.indices, document.indices, tokens, id);
  }

  // No other token has the hash of this one.
  ghost predicate Alone(tokens: seq<string>, id: string -> nat, t: string) {
    t in tokens && forall u :: u in tokens && id(u) == id(t) ==> u == t
  }

  // Then the weight is that of the token itself.
  lemma WithoutCollision(p: Params, tokens: seq<string>, id: string -> nat, t: string, value: real)
    requires Valid(p) && Alone(tokens, id, t) && IsWeightOf(p, tokens, id, id(t), value)
    ensures Occurrences(tokens, t) > 0 && value == Weight(p, Occurrences(tokens, t), |tokens|)
  {
  }
}
