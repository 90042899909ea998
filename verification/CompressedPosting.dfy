// Compressed posting lists: full chunks with the largest impact of each, then
// the remainders.
//
// The two ways the planner asks for a range's largest impact, and the walk that
// reads a range.
//
// Sources: lib/sparse/src/index/compressed_posting_list.rs (max_weight_till_id,
// fill_block_max_ranges, for_each_in_id_range, decoded_chunk_max)
module CompressedPosting {
  import opened Common
  import opened SparsePlan

  const CHUNK_SIZE: nat := 128

  datatype Element = Element(id: PointId, weight: real)

  // The first `chunks` times CHUNK_SIZE elements are stored in chunks.
  datatype Compressed = Compressed(elements: seq<Element>, chunks: nat)

  ghost predicate Stored(c: Compressed) {
    c.chunks * CHUNK_SIZE <= |c.elements| && Increasing(c.elements)
  }

  ghost predicate Increasing(es: seq<Element>) {
    forall i, j :: 0 <= i < j < |es| ==> es[i].id < es[j].id
  }

  function Larger(x: real, y: real): real {
    if x < y then y else x
  }

  // How many elements come before an identity.
  function Before(es: seq<Element>, id: PointId): (n: nat)
    ensures n <= |es| && (forall k :: 0 <= k < n ==> es[k].id < id) && (n < |es| ==> es[n].id >= id)
  {
    Seek(es, id, 0)
  }

  function Seek(es: seq<Element>, id: PointId, i: nat): (n: nat)
    requires i <= |es|
    ensures i <= n <= |es| && (forall k :: i <= k < n ==> es[k].id < id) && (n < |es| ==> es[n].id >= id)
    decreases |es| - i
  {
    if i == |es| || es[i].id >= id then i else Seek(es, id, i + 1)
  }

  lemma BeforeTells(es: seq<Element>, id: PointId, k: nat)
    requires Increasing(es) && k < |es|
    ensures es[k].id < id <==> k < Before(es, id)
  {
    var n := Before(es, id);
    assert n < k < |es| ==> es[n].id < es[k].id;
  }

  // The largest of some impacts; an absent term counts as zero.
  function Largest(es: seq<Element>): real {
    if es == [] then 0.0 else Larger(Largest(es[..|es| - 1]), es[|es| - 1].weight)
  }

  lemma {:induction false} LargestIsMax(es: seq<Element>, k: nat)
    ensures Largest(es) >= 0.0 && (k < |es| ==> es[k].weight <= Largest(es))
  {
    if es != [] { LargestIsMax(es[..|es| - 1], k); }
  }

  function Chunk(c: Compressed, i: nat): (es: seq<Element>)
    requires Stored(c) && i < c.chunks
    ensures |es| == CHUNK_SIZE
  {
    assert (i + 1) * CHUNK_SIZE <= c.chunks * CHUNK_SIZE;
    c.elements[i * CHUNK_SIZE..(i + 1) * CHUNK_SIZE]
  }

  function Initial(c: Compressed, i: nat): PointId
    requires Stored(c) && i < c.chunks
  {
    Chunk(c, i)[0].id
  }

  // The last identity before the next chunk or remainder.
  function CoveredEnd(c: Compressed, i: nat): PointId
    requires Stored(c) && i < c.chunks
  {
    if i + 1 < c.chunks then Previous(Initial(c, i + 1))
    else if c.chunks * CHUNK_SIZE < |c.elements| then Previous(c.elements[c.chunks * CHUNK_SIZE].id)
    else c.elements[|c.elements| - 1].id
  }

  function Previous(id: PointId): PointId {
    if id == 0 then 0 else id - 1
  }

  // Where a chunk ends: at its last element for a cursor, or just before the
  // next chunk for a planner that does not unpack identities.
  function Reach(c: Compressed, packed: bool, i: nat): PointId
    requires Stored(c) && i < c.chunks
  {
    if packed then CoveredEnd(c, i) else Chunk(c, i)[CHUNK_SIZE - 1].id
  }

  predicate Meets(c: Compressed, packed: bool, i: nat, start: nat, end: nat)
    requires Stored(c) && i < c.chunks
  {
    Initial(c, i) < end && start <= Reach(c, packed, i)
  }

  function ChunkFold(c: Compressed, packed: bool, start: nat, end: nat, n: nat): real
    requires Stored(c) && n <= c.chunks
  {
    if n == 0 then 0.0 else
    var m := ChunkFold(c, packed, start, end, n - 1);
    if Meets(c, packed, n - 1, start, end) then Larger(m, Largest(Chunk(c, n - 1))) else m
  }

  // The bound with the chunks and the remainders before position n.
  function Fold(c: Compressed, packed: bool, start: nat, end: nat, n: nat): real
    requires Stored(c) && c.chunks * CHUNK_SIZE <= n <= |c.elements|
  {
    if n == c.chunks * CHUNK_SIZE then ChunkFold(c, packed, start, end, c.chunks) else
    var m, e := Fold(c, packed, start, end, n - 1), c.elements[n - 1];
    if start <= e.id < end then Larger(m, e.weight) else m
  }

  function BlockBound(c: Compressed, packed: bool, start: nat, end: nat): real
    requires Stored(c)
  {
    Fold(c, packed, start, end, |c.elements|)
  }

  lemma InItsChunk(c: Compressed, packed: bool, k: nat)
    requires Stored(c) && k < c.chunks * CHUNK_SIZE
    ensures k / CHUNK_SIZE < c.chunks && c.elements[k].weight <= Largest(Chunk(c, k / CHUNK_SIZE))
    ensures Initial(c, k / CHUNK_SIZE) <= c.elements[k].id <= Reach(c, packed, k / CHUNK_SIZE)
  {
    var i := k / CHUNK_SIZE;
    assert Chunk(c, i)[k - i * CHUNK_SIZE] == c.elements[k];
    LargestIsMax(Chunk(c, i), k - i * CHUNK_SIZE);
    if i + 1 < c.chunks { assert Chunk(c, i + 1)[0] == c.elements[(i + 1) * CHUNK_SIZE]; }
  }

  lemma {:induction false} ChunkFoldBounds(c: Compressed, packed: bool, start: nat, end: nat, n: nat, i: nat)
    requires Stored(c) && n <= c.chunks
    ensures ChunkFold(c, packed, start, end, n) >= 0.0
    ensures i < n && Meets(c, packed, i, start, end) ==>
      Largest(Chunk(c, i)) <= ChunkFold(c, packed, start, end, n)
    decreases n
  {
    if n > 0 {
      LargestIsMax(Chunk(c, n - 1), 0);
      ChunkFoldBounds(c, packed, start, end, n - 1, i);
    }
  }

  lemma {:induction false} FoldBounds(c: Compressed, packed: bool, start: nat, end: nat, n: nat, k: nat)
    requires Stored(c) && c.chunks * CHUNK_SIZE <= n <= |c.elements|
    ensures Fold(c, packed, start, end, n) >= 0.0
    ensures k < n && start <= c.elements[k].id < end ==> c.elements[k].weight <= Fold(c, packed, start, end, n)
    decreases n
  {
    if n == c.chunks * CHUNK_SIZE {
      ChunkFoldBounds(c, packed, start, end, c.chunks, k / CHUNK_SIZE);
      if k < n { InItsChunk(c, packed, k); }
    } else { FoldBounds(c, packed, start, end, n - 1, k); }
  }

  // The impact of an element that the range has to count: one of a chunk that meets
  // it, where a packed chunk reaches up to what comes next, or one inside it.
  ghost predicate Attains(c: Compressed, packed: bool, start: nat, end: nat, k: nat, x: real)
    requires Stored(c)
  {
    && k < |c.elements| && c.elements[k].weight == x
    && if k >= c.chunks * 128 then start <= c.elements[k].id < end else
       var i := k / 128;
       && i * 128 + 127 < |c.elements| && c.elements[i * 128].id < end
       && if packed && i * 128 + 128 < |c.elements| then start < c.elements[i * 128 + 128].id
          else start <= c.elements[i * 128 + 127].id
  }

  lemma {:induction false} LargestAttained(es: seq<Element>) returns (k: nat)
    ensures Largest(es) == 0.0 || (k < |es| && es[k].weight == Largest(es))
    decreases |es|
  {
    k := 0;
    if es != [] {
      k := LargestAttained(es[..|es| - 1]);
      if Largest(es[..|es| - 1]) < es[|es| - 1].weight { k := |es| - 1; }
    }
  }

  lemma ChunkAttained(c: Compressed, packed: bool, start: nat, end: nat, i: nat) returns (k: nat)
    requires Stored(c) && i < c.chunks && Meets(c, packed, i, start, end)
    ensures Largest(Chunk(c, i)) == 0.0 || Attains(c, packed, start, end, k, Largest(Chunk(c, i)))
  {
    var j := LargestAttained(Chunk(c, i));
    k := i * 128 + j;
    if Largest(Chunk(c, i)) != 0.0 {
      assert k / 128 == i;
      assert Chunk(c, i)[j] == c.elements[k];
      assert Chunk(c, i)[0] == c.elements[i * 128] && Chunk(c, i)[127] == c.elements[i * 128 + 127];
      if i + 1 < c.chunks { assert Chunk(c, i + 1)[0] == c.elements[i * 128 + 128]; }
      if i * 128 + 128 < |c.elements| { assert c.elements[i * 128].id < c.elements[i * 128 + 128].id; }
    }
  }

  lemma {:induction false} ChunkFoldAttained(c: Compressed, packed: bool, start: nat, end: nat, n: nat) returns (k: nat)
    requires Stored(c) && n <= c.chunks
    ensures var x := ChunkFold(c, packed, start, end, n); x == 0.0 || Attains(c, packed, start, end, k, x)
    decreases n
  {
    k := 0;
    if n > 0 {
      k := ChunkFoldAttained(c, packed, start, end, n - 1);
      if Meets(c, packed, n - 1, start, end) {
        var j := ChunkAttained(c, packed, start, end, n - 1);
        if ChunkFold(c, packed, start, end, n - 1) < Largest(Chunk(c, n - 1)) { k := j; }
      }
    }
  }

  lemma {:induction false} FoldAttained(c: Compressed, packed: bool, start: nat, end: nat, n: nat) returns (k: nat)
    requires Stored(c) && c.chunks * CHUNK_SIZE <= n <= |c.elements|
    ensures var x := Fold(c, packed, start, end, n); x == 0.0 || Attains(c, packed, start, end, k, x)
    decreases n
  {
    if n == c.chunks * CHUNK_SIZE {
      k := ChunkFoldAttained(c, packed, start, end, c.chunks);
    } else {
      k := FoldAttained(c, packed, start, end, n - 1);
      var e := c.elements[n - 1];
      if start <= e.id < end && Fold(c, packed, start, end, n - 1) < e.weight { k := n - 1; }
    }
  }

  // The bound is no looser than that: zero, or such an impact.
  lemma BlockBoundAttained(c: Compressed, packed: bool, start: nat, end: nat)
    requires Stored(c)
    ensures
      var x := BlockBound(c, packed, start, end);
      x == 0.0 || exists k: nat :: Attains(c, packed, start, end, k, x)
  {
    var k := FoldAttained(c, packed, start, end, |c.elements|);
  }

  function Weights(es: seq<Element>): map<PointId, real>
    requires Increasing(es)
  {
    map k | 0 <= k < |es| :: es[k].id := es[k].weight
  }

  // What the planner sees of a compressed posting.
  function AsPosting(c: Compressed, packed: bool, queryWeight: real): Posting
    requires Stored(c)
  {
    Posting(Weights(c.elements), queryWeight, (start: nat, end: nat) => BlockBound(c, packed, start, end))
  }

  // It has the stored impacts, no others, and the query's weight.
  lemma PostingHolds(c: Compressed, packed: bool, queryWeight: real, id: PointId, x: real)
    requires Stored(c)
    ensures
      var p := AsPosting(c, packed, queryWeight);
      p.queryWeight == queryWeight && (id in p.weights && p.weights[id] == x <==> Element(id, x) in c.elements)
  {
    var p := AsPosting(c, packed, queryWeight);
    if Element(id, x) in c.elements {
      var k :| 0 <= k < |c.elements| && c.elements[k] == Element(id, x);
      assert c.elements[k].id in p.weights;
    }
    if id in p.weights {
      var k :| 0 <= k < |c.elements| && c.elements[k].id == id;
      assert c.elements[k] in c.elements;
      assert p.weights[id] == c.elements[k].weight;
    }
  }

  lemma ImpactBelow(c: Compressed, packed: bool, start: nat, end: nat, id: PointId)
    requires Stored(c)
    ensures BlockBound(c, packed, start, end) >= 0.0
    ensures start <= id < end && id in Weights(c.elements) ==>
      Weights(c.elements)[id] <= BlockBound(c, packed, start, end)
  {
    FoldBounds(c, packed, start, end, |c.elements|, 0);
    if id in Weights(c.elements) {
      var k :| 0 <= k < |c.elements| && c.elements[k].id == id;
      FoldBounds(c, packed, start, end, |c.elements|, k);
    }
  }

  // Either way the bounds are at least every impact in the range.
  lemma BlocksBound(c: Compressed, packed: bool, queryWeight: real)
    requires Stored(c)
    ensures Bounding(AsPosting(c, packed, queryWeight))
  {
    var p := AsPosting(c, packed, queryWeight);
    forall start: nat, end: nat ensures p.maximum(start, end) >= 0.0 {
      ImpactBelow(c, packed, start, end, 0);
    }
    forall start: nat, end: nat, id: PointId | start <= id < end ensures Impact(p, id) <= p.maximum(start, end) {
      ImpactBelow(c, packed, start, end, id);
    }
  }

  // How many chunks begin at or before an identity.
  function Begun(c: Compressed, id: PointId, i: nat): (n: nat)
    requires Stored(c) && i <= c.chunks
    ensures i <= n <= c.chunks && (forall j :: i <= j < n ==> Initial(c, j) <= id)
    ensures n < c.chunks ==> Initial(c, n) > id
    decreases c.chunks - i
  {
    if i == c.chunks || Initial(c, i) > id then i else Begun(c, id, i + 1)
  }

  lemma ChunkAt(c: Compressed, i: nat, k: nat)
    requires Stored(c) && i < c.chunks && k < CHUNK_SIZE
    ensures i * CHUNK_SIZE + k < |c.elements| && Chunk(c, i)[k] == c.elements[i * CHUNK_SIZE + k]
  {
  }

  lemma InitialsIncrease(c: Compressed, i: nat, j: nat)
    requires Stored(c) && i < j < c.chunks
    ensures Chunk(c, i)[CHUNK_SIZE - 1].id < Initial(c, j)
  {
    ChunkAt(c, i, CHUNK_SIZE - 1);
    ChunkAt(c, j, 0);
  }

  lemma FoldTakes(c: Compressed, packed: bool, start: nat, end: nat, i: nat)
    requires Stored(c) && i < c.chunks
    ensures
      var m := ChunkFold(c, packed, start, end, i);
      ChunkFold(c, packed, start, end, i + 1) ==
      if Meets(c, packed, i, start, end) then Larger(m, Largest(Chunk(c, i))) else m
  {
  }

  // Chunks that do not meet the range change nothing.
  lemma {:induction false} FoldSkips(c: Compressed, packed: bool, start: nat, end: nat, i: nat, n: nat)
    requires Stored(c) && i <= n <= c.chunks
    requires forall j :: i <= j < n ==> !Meets(c, packed, j, start, end)
    ensures ChunkFold(c, packed, start, end, n) == ChunkFold(c, packed, start, end, i)
    decreases n
  {
    if i < n { FoldSkips(c, packed, start, end, i, n - 1); }
  }

  // The chunks from `first` up to `stop` are those that meet the range.
  ghost predicate Selects(c: Compressed, packed: bool, start: nat, end: nat, first: nat, stop: nat)
    requires Stored(c)
  {
    forall j :: 0 <= j < c.chunks ==> (Meets(c, packed, j, start, end) <==> first <= j < stop)
  }

  // For a cursor at the first element from `start` on, they are those from the
  // cursor's on that have begun.
  lemma CursorSelects(c: Compressed, pos: nat, start: nat, id: PointId, end: nat)
    requires Stored(c) && pos == Before(c.elements, start) && start <= id && end == id + 1
    ensures Selects(c, false, start, end, pos / CHUNK_SIZE, Begun(c, id, 0))
  {
    var n := Begun(c, id, 0);
    forall j | 0 <= j < c.chunks
      ensures Meets(c, false, j, start, end) <==> pos / CHUNK_SIZE <= j < n
    {
      ChunkAt(c, j, CHUNK_SIZE - 1);
      BeforeTells(c.elements, start, j * CHUNK_SIZE + CHUNK_SIZE - 1);
      if n < j { InitialsIncrease(c, n, j); }
    }
  }

  lemma CursorHasBegun(c: Compressed, pos: nat, start: nat, id: PointId)
    requires Stored(c) && pos == Before(c.elements, start) && start <= id
    ensures pos / CHUNK_SIZE < c.chunks ==> pos / CHUNK_SIZE <= Begun(c, id, 0)
  {
    var n := Begun(c, id, 0);
    if n < c.chunks {
      ChunkAt(c, n, 0);
      BeforeTells(c.elements, start, n * CHUNK_SIZE);
    }
  }

  // The bound from a cursor at the first element from `start` on up to `id`.
  method MaxWeightTillId(c: Compressed, pos: nat, ghost start: nat, id: PointId) returns (m: real)
    requires Stored(c) && pos == Before(c.elements, start) && start <= id
    ensures m == BlockBound(c, false, start, id + 1)
  {
    ghost var end := id + 1;
    CursorSelects(c, pos, start, id, end);
    CursorHasBegun(c, pos, start, id);
    m := MaxOfChunks(c, pos / CHUNK_SIZE, Begun(c, id, 0), start, end);
    var from := if pos < c.chunks * CHUNK_SIZE then c.chunks * CHUNK_SIZE else pos;
    RestSkips(c, start, id, from);
    m := MaxOfRest(c, from, m, start, id);
  }

  method MaxOfChunks(c: Compressed, first: nat, stop: nat, ghost start: nat, ghost end: nat) returns (m: real)
    requires Stored(c) && stop <= c.chunks && (first < c.chunks ==> first <= stop)
    requires Selects(c, false, start, end, first, stop)
    ensures m == ChunkFold(c, false, start, end, c.chunks)
  {
    m := 0.0;
    if first < c.chunks {
      FoldSkips(c, false, start, end, 0, first);
      for i := first to stop
        invariant m == ChunkFold(c, false, start, end, i)
      {
        FoldTakes(c, false, start, end, i);
        var top := Largest(Chunk(c, i));
        m := Larger(m, top);
      }
      FoldSkips(c, false, start, end, stop, c.chunks);
    } else {
      FoldSkips(c, false, start, end, 0, c.chunks);
    }
  }

  method MaxOfRest(c: Compressed, from: nat, before: real, ghost start: nat, id: PointId) returns (m: real)
    requires Stored(c) && c.chunks * CHUNK_SIZE <= from <= |c.elements| && Before(c.elements, start) <= from
    requires before == Fold(c, false, start, id + 1, from)
    ensures m == BlockBound(c, false, start, id + 1)
  {
    m := before;
    var k := from;
    while k < |c.elements| && c.elements[k].id <= id
      invariant from <= k <= |c.elements|
      invariant m == Fold(c, false, start, id + 1, k)
    {
      RestTakes(c, start, id, k);
      m := Larger(m, c.elements[k].weight);
      k := k + 1;
    }
    LaterSkips(c, start, id, k, |c.elements|);
  }

  lemma RestTakes(c: Compressed, start: nat, id: PointId, k: nat)
    requires Stored(c) && c.chunks * CHUNK_SIZE <= k < |c.elements|
    requires Before(c.elements, start) <= k && c.elements[k].id <= id
    ensures Fold(c, false, start, id + 1, k + 1) == Larger(Fold(c, false, start, id + 1, k), c.elements[k].weight)
  {
    BeforeTells(c.elements, start, k);
  }

  // Remainders before the cursor are before the range.
  lemma {:induction false} RestSkips(c: Compressed, start: nat, id: PointId, k: nat)
    requires Stored(c) && c.chunks * CHUNK_SIZE <= k <= |c.elements|
    requires k == c.chunks * CHUNK_SIZE || k <= Before(c.elements, start)
    ensures Fold(c, false, start, id + 1, k) == ChunkFold(c, false, start, id + 1, c.chunks)
    decreases k
  {
    if c.chunks * CHUNK_SIZE < k { RestSkips(c, start, id, k - 1); }
  }

  lemma {:induction false} LaterSkips(c: Compressed, start: nat, id: PointId, k: nat, n: nat)
    requires Stored(c) && c.chunks * CHUNK_SIZE <= k <= n <= |c.elements|
    requires k < |c.elements| ==> c.elements[k].id > id
    ensures Fold(c, false, start, id + 1, n) == Fold(c, false, start, id + 1, k)
    decreases n
  {
    if k < n { LaterSkips(c, start, id, k, n - 1); }
  }

  // A range of identities, numbered from `low` in steps of `width`.
  lemma RangeNumber(x: nat, width: nat, r: nat)
    requires width > 0
    ensures x / width <= r <==> x < (r + 1) * width
    ensures r <= x / width <==> r * width <= x
  {
    var q := x / width;
    assert q * width <= x < (q + 1) * width;
    if q < r { TimesAtLeast(q + 1, r, width); }
    if r < q { TimesAtLeast(r + 1, q, width); }
    TimesAtLeast(r, r + 1, width);
  }

  lemma TimesAtLeast(a: nat, b: nat, width: nat)
    requires a <= b
    ensures a * width <= b * width
  {
    assert (b - a) * width >= 0;
  }

  ghost predicate Raised(before: seq<real>, after: seq<real>, first: nat, last: nat, value: real) {
    && |after| == |before|
    && forall r :: 0 <= r < |after| ==>
         after[r] == if first <= r <= last then Larger(before[r], value) else before[r]
  }

  // Raises the bounds of some consecutive ranges, as far as there are any.
  method Raise(maxima: array<real>, first: nat, last: nat, value: real)
    modifies maxima
    ensures Raised(old(maxima[..]), maxima[..], first, last, value)
  {
    var range := first;
    while range <= last
      invariant forall r :: 0 <= r < maxima.Length ==>
        maxima[r] == if first <= r < range && r <= last then Larger(old(maxima[r]), value) else old(maxima[r])
    {
      if range < maxima.Length { maxima[range] := Larger(maxima[range], value); }
      range := range + 1;
    }
  }

  ghost predicate ChunksIn(c: Compressed, low: nat, width: nat, n: nat, maxima: seq<real>)
    requires Stored(c) && n <= c.chunks
  {
    forall r :: 0 <= r < |maxima| ==> maxima[r] == ChunkFold(c, true, low + r * width, low + (r + 1) * width, n)
  }

  ghost predicate AllIn(c: Compressed, low: nat, width: nat, n: nat, maxima: seq<real>)
    requires Stored(c) && c.chunks * CHUNK_SIZE <= n <= |c.elements|
  {
    forall r :: 0 <= r < |maxima| ==> maxima[r] == Fold(c, true, low + r * width, low + (r + 1) * width, n)
  }

  ghost predicate From(c: Compressed, low: nat) {
    forall k :: 0 <= k < |c.elements| ==> low <= c.elements[k].id
  }

  lemma ChunkFrom(c: Compressed, low: nat, i: nat)
    requires Stored(c) && From(c, low) && i < c.chunks
    ensures low <= Initial(c, i) <= CoveredEnd(c, i)
  {
    ChunkAt(c, i, 0);
    InItsChunk(c, true, i * CHUNK_SIZE);
  }

  function FirstRange(c: Compressed, low: nat, width: nat, i: nat): nat
    requires Stored(c) && i < c.chunks && width > 0
  {
    if low <= Initial(c, i) then (Initial(c, i) - low) / width else 0
  }

  function LastRange(c: Compressed, low: nat, width: nat, i: nat): nat
    requires Stored(c) && i < c.chunks && width > 0
  {
    if low <= CoveredEnd(c, i) then (CoveredEnd(c, i) - low) / width else 0
  }

  function RangeOf(c: Compressed, low: nat, width: nat, k: nat): nat
    requires k < |c.elements| && width > 0
  {
    if low <= c.elements[k].id then (c.elements[k].id - low) / width else 0
  }

  // The ranges a chunk raises are those it meets.
  lemma ChunkMeets(c: Compressed, low: nat, width: nat, i: nat, r: nat)
    requires Stored(c) && From(c, low) && i < c.chunks && width > 0 && low <= Initial(c, i) <= CoveredEnd(c, i)
    ensures
      Meets(c, true, i, low + r * width, low + (r + 1) * width) <==>
      FirstRange(c, low, width, i) <= r <= LastRange(c, low, width, i)
  {
    RangeNumber(Initial(c, i) - low, width, r);
    RangeNumber(CoveredEnd(c, i) - low, width, r);
  }

  lemma ChunkRaises(c: Compressed, low: nat, width: nat, i: nat, before: seq<real>, after: seq<real>)
    requires Stored(c) && From(c, low) && i < c.chunks && width > 0 && low <= Initial(c, i) <= CoveredEnd(c, i)
    requires ChunksIn(c, low, width, i, before)
    requires Raised(before, after, FirstRange(c, low, width, i), LastRange(c, low, width, i), Largest(Chunk(c, i)))
    ensures ChunksIn(c, low, width, i + 1, after)
  {
    forall r | 0 <= r < |after|
      ensures after[r] == ChunkFold(c, true, low + r * width, low + (r + 1) * width, i + 1)
    {
      ChunkMeets(c, low, width, i, r);
      FoldTakes(c, true, low + r * width, low + (r + 1) * width, i);
    }
  }

  lemma RestRaises(c: Compressed, low: nat, width: nat, k: nat, before: seq<real>, after: seq<real>)
    requires Stored(c) && From(c, low) && c.chunks * CHUNK_SIZE <= k < |c.elements| && width > 0
    requires AllIn(c, low, width, k, before)
    requires Raised(before, after, RangeOf(c, low, width, k), RangeOf(c, low, width, k), c.elements[k].weight)
    ensures AllIn(c, low, width, k + 1, after)
  {
    forall r | 0 <= r < |after|
      ensures after[r] == Fold(c, true, low + r * width, low + (r + 1) * width, k + 1)
    {
      RangeNumber(c.elements[k].id - low, width, r);
    }
  }

  method FillChunk(c: Compressed, low: nat, width: nat, i: nat, maxima: array<real>)
    requires Stored(c) && From(c, low) && width > 0 && i < c.chunks && ChunksIn(c, low, width, i, maxima[..])
    modifies maxima
    ensures ChunksIn(c, low, width, i + 1, maxima[..])
  {
    ChunkFrom(c, low, i);
    Raise(maxima, FirstRange(c, low, width, i), LastRange(c, low, width, i), Largest(Chunk(c, i)));
    ChunkRaises(c, low, width, i, old(maxima[..]), maxima[..]);
  }

  method FillElement(c: Compressed, low: nat, width: nat, k: nat, maxima: array<real>)
    requires Stored(c) && From(c, low) && width > 0 && c.chunks * CHUNK_SIZE <= k < |c.elements|
    requires AllIn(c, low, width, k, maxima[..])
    modifies maxima
    ensures AllIn(c, low, width, k + 1, maxima[..])
  {
    var range := RangeOf(c, low, width, k);
    Raise(maxima, range, range, c.elements[k].weight);
    RestRaises(c, low, width, k, old(maxima[..]), maxima[..]);
  }

  method Clear(maxima: array<real>)
    modifies maxima
    ensures forall r :: 0 <= r < |maxima[..]| ==> maxima[..][r] == 0.0
  {
    for r := 0 to maxima.Length
      invariant forall t :: 0 <= t < r ==> maxima[t] == 0.0
    {
      maxima[r] := 0.0;
    }
  }

  // The largest impact of every range, without unpacking identities.
  method FillBlockMaxRanges(c: Compressed, low: nat, width: nat, maxima: array<real>)
    requires Stored(c) && From(c, low) && width > 0
    modifies maxima
    ensures AllIn(c, low, width, |c.elements|, maxima[..])
  {
    Clear(maxima);
    for i := 0 to c.chunks
      invariant ChunksIn(c, low, width, i, maxima[..])
    {
      FillChunk(c, low, width, i, maxima);
    }
    for k := c.chunks * CHUNK_SIZE to |c.elements|
      invariant AllIn(c, low, width, k, maxima[..])
    {
      FillElement(c, low, width, k, maxima);
    }
  }

  // A range that reaches past every identity may be cut there.
  lemma {:induction false} CutChunks(c: Compressed, start: nat, end: nat, high: nat, n: nat)
    requires Stored(c) && n <= c.chunks && high <= end && forall k :: 0 <= k < |c.elements| ==> c.elements[k].id < high
    ensures ChunkFold(c, true, start, end, n) == ChunkFold(c, true, start, high, n)
    decreases n
  {
    if n > 0 {
      ChunkAt(c, n - 1, 0);
      CutChunks(c, start, end, high, n - 1);
    }
  }

  lemma {:induction false} CutRest(c: Compressed, start: nat, end: nat, high: nat, n: nat)
    requires Stored(c) && c.chunks * CHUNK_SIZE <= n <= |c.elements| && high <= end
    requires forall k :: 0 <= k < |c.elements| ==> c.elements[k].id < high
    ensures Fold(c, true, start, end, n) == Fold(c, true, start, high, n)
    decreases n
  {
    if n == c.chunks * CHUNK_SIZE { CutChunks(c, start, end, high, c.chunks); }
    else { CutRest(c, start, end, high, n - 1); }
  }

  lemma {:induction false} CutAt(start: nat, high: nat, width: nat, r: nat)
    requires width > 0 && r < |Cuts(start, high, width)|
    ensures Cuts(start, high, width)[r] == start + r * width
    decreases r
  {
    var next := NextCut(start, high, width);
    if r > 0 {
      CutAt(next, high, width, r - 1);
      assert (r - 1) * width == r * width - width;
    }
  }

  // The filled bounds are the maxima the planner reads for its ranges.
  lemma FilledIsPlanned(c: Compressed, low: nat, high: nat, width: nat, queryWeight: real, maxima: seq<real>, r: nat)
    requires Stored(c) && From(c, low) && width > 0 && AllIn(c, low, width, |c.elements|, maxima)
    requires forall k :: 0 <= k < |c.elements| ==> c.elements[k].id < high
    requires |maxima| == |Cuts(low, high, width)| && r < |maxima|
    ensures
      var start := Cuts(low, high, width)[r];
      maxima[r] == AsPosting(c, true, queryWeight).maximum(start, NextCut(start, high, width))
  {
    CutAt(low, high, width, r);
    var start, end := low + r * width, low + (r + 1) * width;
    assert end == start + width;
    assert maxima[r] == BlockBound(c, true, start, end);
    if high < end { CutRest(c, start, end, high, |c.elements|); }
  }

  function Clip(x: nat, from: nat, to: nat): nat {
    if x < from then from else if x > to then to else x
  }

  // Counting inside a stretch of the list.
  lemma BeforeInside(es: seq<Element>, lo: nat, hi: nat, id: PointId)
    requires Increasing(es) && lo <= hi <= |es|
    ensures lo + Before(es[lo..hi], id) == Clip(Before(es, id), lo, hi)
  {
    var n := Before(es[lo..hi], id);
    if lo + n < hi {
      assert es[lo..hi][n] == es[lo + n];
      BeforeTells(es, id, lo + n);
    }
    if n > 0 {
      assert es[lo..hi][n - 1] == es[lo + n - 1];
      BeforeTells(es, id, lo + n - 1);
    }
  }

  lemma Inner<T>(xs: seq<T>, lo: nat, hi: nat, a: nat, b: nat)
    requires lo <= hi <= |xs| && a <= b <= hi - lo
    ensures xs[lo..hi][a..b] == xs[lo + a..lo + b]
  {
    forall k | 0 <= k < b - a ensures xs[lo..hi][a..b][k] == xs[lo + a..lo + b][k] {
      assert xs[lo..hi][a..b][k] == xs[lo..hi][a + k];
    }
  }

  lemma Join<T>(xs: seq<T>, i: nat, j: nat, k: nat)
    requires i <= j <= k <= |xs|
    ensures xs[i..j] + xs[j..k] == xs[i..k]
  {
  }

  // What a stretch from lo to hi adds to the part from `from` to `to`.
  lemma SliceOfSlice<T>(xs: seq<T>, lo: nat, hi: nat, from: nat, to: nat, a: nat, b: nat)
    requires lo <= hi <= |xs| && from <= to <= |xs| && lo + a == Clip(from, lo, hi) && lo + b == Clip(to, lo, hi)
    ensures a <= b && xs[from..Clip(lo, from, to)] + xs[lo..hi][a..b] == xs[from..Clip(hi, from, to)]
  {
    assert xs[lo..hi][a..b] == xs[lo + a..lo + b] by { Inner(xs, lo, hi, a, b); }
    if a < b {
      assert Clip(lo, from, to) == lo + a && Clip(hi, from, to) == lo + b;
      Join(xs, from, lo + a, lo + b);
    } else {
      assert Clip(lo, from, to) == Clip(hi, from, to) && xs[lo + a..lo + b] == [];
    }
  }

  lemma BeforeGrows(es: seq<Element>, start: nat, end: nat)
    requires Increasing(es) && start <= end
    ensures Before(es, start) <= Before(es, end)
  {
    var n := Before(es, end);
    if n < |es| { BeforeTells(es, start, n); }
  }

  // The elements of the range before a position of the list.
  ghost function Upto(es: seq<Element>, start: nat, end: nat, n: nat): seq<Element>
    requires Increasing(es) && start <= end && n <= |es|
  {
    BeforeGrows(es, start, end);
    es[Before(es, start)..Clip(n, Before(es, start), Before(es, end))]
  }

  // A stretch of the list adds what it has of the range.
  lemma StretchAdds(es: seq<Element>, lo: nat, hi: nat, start: nat, end: nat)
    requires Increasing(es) && lo <= hi <= |es| && start <= end
    ensures
      var part := es[lo..hi];
      && Before(part, start) <= Before(part, end)
      && Upto(es, start, end, lo) + part[Before(part, start)..Before(part, end)] == Upto(es, start, end, hi)
  {
    BeforeGrows(es, start, end);
    BeforeInside(es, lo, hi, start);
    BeforeInside(es, lo, hi, end);
    var part := es[lo..hi];
    SliceOfSlice(es, lo, hi, Before(es, start), Before(es, end), Before(part, start), Before(part, end));
  }

  // Past the range nothing is added.
  lemma PastAdds(es: seq<Element>, n: nat, m: nat, start: nat, end: nat)
    requires Increasing(es) && n <= m <= |es| && start <= end && Before(es, end) <= n
    ensures Upto(es, start, end, m) == Upto(es, start, end, n)
  {
    BeforeGrows(es, start, end);
  }

  lemma SliceIncreases(es: seq<Element>, i: nat, j: nat)
    requires Increasing(es) && i <= j <= |es|
    ensures Increasing(es[i..j])
  {
  }

  lemma SliceHas(es: seq<Element>, i: nat, j: nat, k: nat)
    requires i <= j <= |es| && i <= k < j
    ensures es[k] in es[i..j]
  {
    assert es[i..j][k - i] == es[k];
  }

  lemma InRange(es: seq<Element>, start: nat, end: nat, k: nat)
    requires Increasing(es) && start <= end && k < |es|
    ensures Before(es, start) <= k < Before(es, end) <==> start <= es[k].id < end
  {
    BeforeTells(es, start, k);
    BeforeTells(es, end, k);
  }

  lemma RangeHas(es: seq<Element>, start: nat, end: nat, e: Element)
    requires Increasing(es) && start <= end
    ensures e in Upto(es, start, end, |es|) <==> e in es && start <= e.id < end
  {
    BeforeGrows(es, start, end);
    var from, to := Before(es, start), Before(es, end);
    if e in es[from..to] {
      var k :| 0 <= k < to - from && es[from..to][k] == e;
      InRange(es, start, end, from + k);
    }
    if e in es && start <= e.id < end {
      var k :| 0 <= k < |es| && es[k] == e;
      InRange(es, start, end, k);
      SliceHas(es, from, to, k);
    }
  }

  lemma RangeExactly(es: seq<Element>, start: nat, end: nat)
    requires Increasing(es) && start <= end
    ensures
      var found := Upto(es, start, end, |es|);
      Increasing(found) && forall e :: e in found <==> e in es && start <= e.id < end
  {
    BeforeGrows(es, start, end);
    SliceIncreases(es, Before(es, start), Before(es, end));
    forall e ensures e in Upto(es, start, end, |es|) <==> e in es && start <= e.id < end {
      RangeHas(es, start, end, e);
    }
  }

  // Reads the elements of a range in order, without moving a cursor.
  method ForEachInIdRange(c: Compressed, start: nat, end: nat) returns (visited: seq<Element>)
    requires Stored(c)
    ensures Increasing(visited) && forall e :: e in visited <==> e in c.elements && start <= e.id <= end
  {
    visited := [];
    if start <= end {
      visited := VisitAll(c, start, end);
      RangeExactly(c.elements, start, end + 1);
    }
  }

  method VisitAll(c: Compressed, start: nat, end: nat) returns (visited: seq<Element>)
    requires Stored(c) && start <= end
    ensures visited == Upto(c.elements, start, end + 1, |c.elements|)
  {
    visited := VisitChunks(c, start, end);
    var first := c.chunks * CHUNK_SIZE;
    StretchAdds(c.elements, first, |c.elements|, start, end + 1);
    var rest := VisitRest(c.elements[first..|c.elements|], start, end);
    visited := visited + rest;
  }

  method VisitRest(es: seq<Element>, start: nat, end: nat) returns (visited: seq<Element>)
    requires Increasing(es) && start <= end && Before(es, start) <= Before(es, end + 1)
    ensures visited == es[Before(es, start)..Before(es, end + 1)]
  {
    visited := [];
    var k := Before(es, start);
    while k < |es| && es[k].id <= end
      invariant Before(es, start) <= k <= Before(es, end + 1)
      invariant visited == es[Before(es, start)..k]
    {
      BeforeTells(es, end + 1, k);
      visited := visited + [es[k]];
      k := k + 1;
    }
  }

  method VisitChunks(c: Compressed, start: nat, end: nat) returns (visited: seq<Element>)
    requires Stored(c) && start <= end
    ensures visited == Upto(c.elements, start, end + 1, c.chunks * CHUNK_SIZE)
  {
    visited := [];
    var begun := Begun(c, start, 0);
    var i := if begun == 0 then 0 else begun - 1;
    FirstChunk(c, start, end, i);
    while i < c.chunks
      invariant i <= c.chunks && visited == Upto(c.elements, start, end + 1, i * CHUNK_SIZE)
    {
      var found, done := VisitNext(c, start, end, i, visited);
      visited := found;
      if done { break; }
      i := i + 1;
    }
  }

  method VisitNext(c: Compressed, start: nat, end: nat, i: nat, before: seq<Element>)
      returns (visited: seq<Element>, done: bool)
    requires Stored(c) && start <= end && i < c.chunks
    requires before == Upto(c.elements, start, end + 1, i * CHUNK_SIZE)
    ensures visited == Upto(c.elements, start, end + 1, (if done then c.chunks else i + 1) * CHUNK_SIZE)
  {
    if Initial(c, i) > end {
      PastChunk(c, start, end, i);
      return before, true;
    }
    visited, done := VisitChunk(c, start, end, i);
    ChunkAdds(c, start, end, i);
    visited := before + visited;
    if done { PartChunk(c, start, end, i); }
  }

  // What a chunk has of the range; it is the last such chunk if the range ends
  // inside.
  method VisitChunk(c: Compressed, start: nat, end: nat, i: nat) returns (found: seq<Element>, isLast: bool)
    requires Stored(c) && start <= end && i < c.chunks
    ensures
      var ids := Chunk(c, i);
      && Before(ids, start) <= Before(ids, end + 1)
      && found == ids[Before(ids, start)..Before(ids, end + 1)]
      && (isLast ==> Before(ids, end + 1) != CHUNK_SIZE)
  {
    var ids := Chunk(c, i);
    assert Before(ids, start) <= Before(ids, end + 1) by { ChunkAdds(c, start, end, i); }
    var localStart, localEnd := Before(ids, start), Before(ids, end + 1);
    if localStart == localEnd { return [], false; }
    return ids[localStart..localEnd], localEnd != CHUNK_SIZE;
  }

  lemma FirstChunk(c: Compressed, start: nat, end: nat, i: nat)
    requires Stored(c) && start <= end && i <= c.chunks && (i > 0 ==> i < c.chunks && Initial(c, i) <= start)
    ensures Upto(c.elements, start, end + 1, i * CHUNK_SIZE) == []
  {
    if i > 0 {
      ChunkAt(c, i, 0);
      BeforeTells(c.elements, start, i * CHUNK_SIZE - 1);
    }
    BeforeGrows(c.elements, start, end + 1);
  }

  lemma ChunkAdds(c: Compressed, start: nat, end: nat, i: nat)
    requires Stored(c) && start <= end && i < c.chunks
    ensures
      var ids := Chunk(c, i);
      && Before(ids, start) <= Before(ids, end + 1)
      && Upto(c.elements, start, end + 1, i * CHUNK_SIZE) + ids[Before(ids, start)..Before(ids, end + 1)] ==
         Upto(c.elements, start, end + 1, (i + 1) * CHUNK_SIZE)
  {
    StretchAdds(c.elements, i * CHUNK_SIZE, (i + 1) * CHUNK_SIZE, start, end + 1);
  }

  lemma PastChunk(c: Compressed, start: nat, end: nat, i: nat)
    requires Stored(c) && start <= end && i < c.chunks && Initial(c, i) > end
    ensures
      Upto(c.elements, start, end + 1, c.chunks * CHUNK_SIZE) == Upto(c.elements, start, end + 1, i * CHUNK_SIZE)
  {
    ChunkAt(c, i, 0);
    BeforeTells(c.elements, end + 1, i * CHUNK_SIZE);
    PastAdds(c.elements, i * CHUNK_SIZE, c.chunks * CHUNK_SIZE, start, end + 1);
  }

  lemma PartChunk(c: Compressed, start: nat, end: nat, i: nat)
    requires Stored(c) && start <= end && i < c.chunks && Before(Chunk(c, i), end + 1) != CHUNK_SIZE
    ensures
      Upto(c.elements, start, end + 1, c.chunks * CHUNK_SIZE) == Upto(c.elements, start, end + 1, (i + 1) * CHUNK_SIZE)
  {
    BeforeInside(c.elements, i * CHUNK_SIZE, (i + 1) * CHUNK_SIZE, end + 1);
    PastAdds(c.elements, (i + 1) * CHUNK_SIZE, c.chunks * CHUNK_SIZE, start, end + 1);
  }
}
