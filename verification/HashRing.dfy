// Consistent-hash ring of virtual nodes.
//
// Source: lib/collection/src/hash_ring.rs
module HashRing {
  import opened Common

  type ShardId = nat

  // A raw ring places each shard once, a fair ring `scale` times.
  datatype Kind = Raw | Fair(scale: nat)

  datatype VirtualNode = RawNode(shard: ShardId) | FairNode(shard: ShardId, idx: nat)

  // The library ring: entries sorted by hash.
  datatype Entry = Entry(hash: nat, node: VirtualNode)

  // Stable hashes of virtual nodes; collision freedom is an assumption.
  datatype Hasher = Hasher(hash: VirtualNode -> nat)

  ghost predicate CollisionFree(h: Hasher) {
    forall m, n {:trigger h.hash(m), h.hash(n)} :: h.hash(m) == h.hash(n) ==> m == n
  }

  function EntryOf(h: Hasher, n: VirtualNode): Entry {
    Entry(h.hash(n), n)
  }

  // Virtual nodes of one shard.
  function Replicas(kind: Kind): nat {
    match kind
    case Raw => 1
    case Fair(scale) => scale
  }

  function Replica(kind: Kind, shard: ShardId, idx: nat): VirtualNode {
    match kind
    case Raw => RawNode(shard)
    case Fair(_) => FairNode(shard, idx)
  }

  ghost predicate Sorted(ring: seq<Entry>) {
    forall i, j :: 0 <= i < j < |ring| ==> ring[i].hash < ring[j].hash
  }

  // The ring holds exactly the replicas of the given nodes, in hash order.
  ghost predicate IsRing(h: Hasher, kind: Kind, nodes: set<ShardId>, ring: seq<Entry>) {
    && Sorted(ring)
    && forall e :: e in ring <==> IsEntry(h, kind, nodes, Replicas(kind), e)
  }

  ghost predicate IsEntry(h: Hasher, kind: Kind, nodes: set<ShardId>, count: nat, e: Entry) {
    exists idx :: 0 <= idx < count && e.node.shard in nodes && e == EntryOf(h, Replica(kind, e.node.shard, idx))
  }

  // The canonical form: nodes and scale alone determine the ring, whatever
  // sequence of additions and removals led to it.
  lemma RingIsCanonical(h: Hasher, kind: Kind, nodes: set<ShardId>, ring: seq<Entry>, other: seq<Entry>)
    requires IsRing(h, kind, nodes, ring) && IsRing(h, kind, nodes, other)
    ensures ring == other
  {
    SortedUnique(ring, other);
  }

  lemma {:induction false} SortedUnique(xs: seq<Entry>, ys: seq<Entry>)
    requires Sorted(xs) && Sorted(ys) && forall e :: e in xs <==> e in ys
    ensures xs == ys
    decreases |xs|
  {
    assert |ys| > 0 ==> ys[0] in ys;
    if xs != [] {
      assert xs[0] in ys && ys[0] in xs;
      var i :| 0 <= i < |ys| && ys[i] == xs[0];
      var j :| 0 <= j < |xs| && xs[j] == ys[0];
      assert xs == [xs[0]] + xs[1..] && ys == [ys[0]] + ys[1..];
      TailEntries(xs);
      TailEntries(ys);
      SortedUnique(xs[1..], ys[1..]);
    }
  }

  lemma TailEntries(xs: seq<Entry>)
    requires Sorted(xs) && xs != []
    ensures Sorted(xs[1..]) && forall e :: e in xs[1..] <==> e in xs && e != xs[0]
  {
    assert xs == [xs[0]] + xs[1..];
    forall e | e in xs[1..]
      ensures e != xs[0]
    {
      var i :| 0 <= i < |xs[1..]| && xs[1..][i] == e;
      assert xs[i + 1] == e;
    }
  }

  // ---------------------------------------------------------------------
  // The library operations

  // Index of the first entry whose hash is not below k.
  function Position(ring: seq<Entry>, k: nat): (i: nat)
    ensures i <= |ring|
    ensures forall j :: 0 <= j < i ==> ring[j].hash < k
    ensures i < |ring| ==> ring[i].hash >= k
  {
    if ring == [] || ring[0].hash >= k then 0 else 1 + Position(ring[1..], k)
  }

  // Pushes the entry and sorts.
  function LibAdd(ring: seq<Entry>, e: Entry): seq<Entry> {
    var i := Position(ring, e.hash);
    ring[..i] + [e] + ring[i..]
  }

  // Removes the entry found under the hash, if any.
  function LibRemove(ring: seq<Entry>, hash: nat): seq<Entry> {
    var i := Position(ring, hash);
    if i < |ring| && ring[i].hash == hash then ring[..i] + ring[i + 1..] else ring
  }

  // The entry at or after the key's hash, wrapping around.
  function LibGet(ring: seq<Entry>, k: nat): Option<Entry> {
    if ring == [] then None else
    var i := Position(ring, k);
    Some(ring[if i == |ring| then 0 else i])
  }

  lemma LibAddCorrect(ring: seq<Entry>, e: Entry)
    requires Sorted(ring) && forall x :: x in ring ==> x.hash != e.hash
    ensures Sorted(LibAdd(ring, e)) && forall x :: x in LibAdd(ring, e) <==> x in ring || x == e
  {
    var i := Position(ring, e.hash);
    forall j | i <= j < |ring| ensures ring[j].hash > e.hash {
      assert ring[j] in ring && (i < j ==> ring[i].hash < ring[j].hash);
    }
    PutIn(ring, e, i);
  }

  lemma PutIn(ring: seq<Entry>, e: Entry, i: nat)
    requires Sorted(ring) && i <= |ring|
    requires forall j :: 0 <= j < i ==> ring[j].hash < e.hash
    requires forall j :: i <= j < |ring| ==> e.hash < ring[j].hash
    ensures Sorted(ring[..i] + [e] + ring[i..])
    ensures forall x :: x in ring[..i] + [e] + ring[i..] <==> x in ring || x == e
  {
    var out := ring[..i] + [e] + ring[i..];
    assert forall j :: 0 <= j < |out| ==> out[j] == if j < i then ring[j] else if j == i then e else ring[j - 1];
    assert forall j :: 0 <= j < |out| && j != i ==> out[j] in ring;
    forall x | x in ring ensures x in out {
      var j :| 0 <= j < |ring| && ring[j] == x;
      assert out[if j < i then j else j + 1] == x;
    }
    assert out[i] == e;
  }

  lemma LibRemoveCorrect(ring: seq<Entry>, hash: nat)
    requires Sorted(ring)
    ensures Sorted(LibRemove(ring, hash)) && forall x :: x in LibRemove(ring, hash) <==> x in ring && x.hash != hash
  {
    var i := Position(ring, hash);
    if i < |ring| && ring[i].hash == hash {
      CutOut(ring, i);
    } else {
      forall j | 0 <= j < |ring|
        ensures ring[j].hash != hash
      {
        assert i < j ==> ring[i].hash < ring[j].hash;
      }
    }
  }

  lemma CutOut(ring: seq<Entry>, i: nat)
    requires Sorted(ring) && i < |ring|
    ensures Sorted(ring[..i] + ring[i + 1..])
    ensures forall x :: x in ring[..i] + ring[i + 1..] <==> x in ring && x.hash != ring[i].hash
  {
    var out := ring[..i] + ring[i + 1..];
    assert forall j :: 0 <= j < |out| ==> out[j] == ring[if j < i then j else j + 1];
    assert forall j :: 0 <= j < |out| ==> out[j] in ring && out[j].hash != ring[i].hash;
    forall x | x in ring && x.hash != ring[i].hash
      ensures x in out
    {
      var j :| 0 <= j < |ring| && ring[j] == x;
      assert out[if j < i then j else j - 1] == x;
    }
  }

  // Clockwise from k, x comes before y.
  ghost predicate Closer(k: nat, x: Entry, y: Entry) {
    if x.hash >= k && y.hash < k then true
    else if x.hash < k && y.hash >= k then false
    else x.hash < y.hash
  }

  // Lookup returns the entry closest clockwise from the key.
  lemma LibGetIsClosest(ring: seq<Entry>, k: nat)
    requires Sorted(ring)
    ensures LibGet(ring, k).None? <==> ring == []
    ensures LibGet(ring, k).Some? ==> LibGet(ring, k).value in ring
    ensures LibGet(ring, k).Some? ==> forall x :: x in ring && x != LibGet(ring, k).value ==>
      Closer(k, LibGet(ring, k).value, x)
  {
    if ring != [] {
      var i := Position(ring, k);
      var g := if i == |ring| then 0 else i;
      forall x | x in ring && x != ring[g]
        ensures Closer(k, ring[g], x)
      {
        var j :| 0 <= j < |ring| && ring[j] == x;
        assert j < i ==> ring[j].hash < k;
        assert g < j ==> ring[g].hash < ring[j].hash;
        assert j < g ==> ring[j].hash < ring[g].hash;
      }
    }
  }

  // ---------------------------------------------------------------------
  // Ownership

  function Owner(ring: seq<Entry>, k: nat): Option<ShardId> {
    var e := LibGet(ring, k);
    if e.Some? then Some(e.value.node.shard) else None
  }

  // Every key of a non-empty ring has an owner among the nodes; with no nodes
  // (or no replicas) there is none.
  lemma OwnerIsNode(h: Hasher, kind: Kind, nodes: set<ShardId>, ring: seq<Entry>, k: nat)
    requires IsRing(h, kind, nodes, ring)
    ensures Owner(ring, k).Some? ==> Owner(ring, k).value in nodes
    ensures Owner(ring, k).Some? <==> nodes != {} && Replicas(kind) > 0
  {
    LibGetIsClosest(ring, k);
    if nodes != {} && Replicas(kind) > 0 {
      var s :| s in nodes;
      var e := EntryOf(h, Replica(kind, s, 0));
      assert IsEntry(h, kind, nodes, Replicas(kind), e);
      assert e in ring;
    }
    if ring != [] {
      assert ring[0] in ring;
    }
  }

  // Minimal disruption: between a ring and the same ring with one more shard,
  // the owner of every key stays or becomes that shard. Read backwards, taking
  // a shard out moves only the keys it owned.
  lemma MinimalDisruption(h: Hasher, kind: Kind, nodes: set<ShardId>, shard: ShardId,
                          small: seq<Entry>, large: seq<Entry>, k: nat)
    requires CollisionFree(h)
    requires IsRing(h, kind, nodes - {shard}, small) && IsRing(h, kind, nodes + {shard}, large)
    ensures Owner(large, k) == Owner(small, k) || Owner(large, k) == Some(shard)
    ensures Owner(small, k) != Some(shard)
  {
    LibGetIsClosest(small, k);
    LibGetIsClosest(large, k);
    OwnerIsNode(h, kind, nodes - {shard}, small, k);
    OwnerIsNode(h, kind, nodes + {shard}, large, k);
    if Owner(large, k).Some? && Owner(large, k) != Some(shard) {
      var g := LibGet(large, k).value;
      assert g in large;
      assert IsEntry(h, kind, nodes + {shard}, Replicas(kind), g);
      assert IsEntry(h, kind, nodes - {shard}, Replicas(kind), g);
      assert g in small;
      var f := LibGet(small, k).value;
      assert IsEntry(h, kind, nodes - {shard}, Replicas(kind), f);
      assert IsEntry(h, kind, nodes + {shard}, Replicas(kind), f);
      assert f in large;
      assert f == g || (Closer(k, f, g) && Closer(k, g, f));
    }
  }

  // A raw ring has one virtual node a shard, a fair ring those numbered below the
  // scale.
  ghost predicate OnRing(kind: Kind, nodes: set<ShardId>, n: VirtualNode) {
    n.shard in nodes && match kind
      case Raw => n.RawNode?
      case Fair(scale) => n.FairNode? && n.idx < scale
  }

  lemma RingHolds(h: Hasher, kind: Kind, nodes: set<ShardId>, ring: seq<Entry>, e: Entry)
    requires IsRing(h, kind, nodes, ring)
    ensures e in ring <==> OnRing(kind, nodes, e.node) && e.hash == h.hash(e.node)
  {
    if OnRing(kind, nodes, e.node) && e.hash == h.hash(e.node) {
      var idx := if e.node.FairNode? then e.node.idx else 0;
      assert e == EntryOf(h, Replica(kind, e.node.shard, idx));
    }
  }

  // Going up from a key and around, x is not met after y.
  ghost predicate MetFirst(k: nat, x: nat, y: nat) {
    (x >= k && y < k) || ((x >= k <==> y >= k) && x <= y)
  }

  // The owner is the shard of the virtual node met first from the key on.
  ghost predicate Owns(h: Hasher, kind: Kind, nodes: set<ShardId>, k: nat, n: VirtualNode) {
    OnRing(kind, nodes, n) && forall m :: OnRing(kind, nodes, m) ==> MetFirst(k, h.hash(n), h.hash(m))
  }

  lemma OwnerExactly(h: Hasher, kind: Kind, nodes: set<ShardId>, ring: seq<Entry>, k: nat, s: ShardId)
    requires CollisionFree(h) && IsRing(h, kind, nodes, ring)
    ensures Owner(ring, k) == Some(s) <==> exists n :: Owns(h, kind, nodes, k, n) && n.shard == s
  {
    LibGetIsClosest(ring, k);
    if ring != [] { FirstOwns(h, kind, nodes, ring, k); }
    forall n | Owns(h, kind, nodes, k, n) ensures ring != [] && LibGet(ring, k).value.node == n {
      RingHolds(h, kind, nodes, ring, EntryOf(h, n));
      var g := LibGet(ring, k).value;
      FirstOwns(h, kind, nodes, ring, k);
      assert h.hash(g.node) == h.hash(n);
    }
  }

  lemma FirstOwns(h: Hasher, kind: Kind, nodes: set<ShardId>, ring: seq<Entry>, k: nat)
    requires IsRing(h, kind, nodes, ring) && ring != []
    ensures LibGet(ring, k).Some? && Owns(h, kind, nodes, k, LibGet(ring, k).value.node)
    ensures LibGet(ring, k).value.hash == h.hash(LibGet(ring, k).value.node)
  {
    LibGetIsClosest(ring, k);
    var g := LibGet(ring, k).value;
    RingHolds(h, kind, nodes, ring, g);
    forall m | OnRing(kind, nodes, m) ensures MetFirst(k, h.hash(g.node), h.hash(m)) {
      RingHolds(h, kind, nodes, ring, EntryOf(h, m));
    }
  }

  // ---------------------------------------------------------------------
  // The ring object

  class Ring {
    const hasher: Hasher
    const kind: Kind
    var nodes: set<ShardId>
    var ring: seq<Entry>

    ghost predicate Valid()
      reads this
    {
      CollisionFree(hasher) && IsRing(hasher, kind, nodes, ring)
    }

    constructor (hasher: Hasher, kind: Kind)
      requires CollisionFree(hasher)
      ensures Valid() && nodes == {} && this.hasher == hasher && this.kind == kind
    {
      this.hasher, this.kind := hasher, kind;
      nodes, ring := {}, [];
    }

    constructor Clone(from: Ring)
      requires from.Valid()
      ensures Valid() && nodes == from.nodes && ring == from.ring
      ensures hasher == from.hasher && kind == from.kind
    {
      hasher, kind, nodes, ring := from.hasher, from.kind, from.nodes, from.ring;
    }

    // Adds a shard; false, and no change, if it is there already.
    method Add(shard: ShardId) returns (added: bool)
      requires Valid()
      modifies this
      ensures Valid() && nodes == old(nodes) + {shard}
      ensures added <==> shard !in old(nodes)
      ensures !added ==> ring == old(ring)
    {
      if shard in nodes {
        assert nodes == nodes + {shard};
        return false;
      }
      nodes := nodes + {shard};
      for idx := 0 to Replicas(kind)
        invariant nodes == old(nodes) + {shard} && Sorted(ring)
        invariant forall e :: e in ring <==>
          IsEntry(hasher, kind, old(nodes), Replicas(kind), e) || IsEntry(hasher, kind, {shard}, idx, e)
      {
        var e := EntryOf(hasher, Replica(kind, shard, idx));
        NewReplica(hasher, kind, old(nodes), shard, idx, ring);
        LibAddCorrect(ring, e);
        MoreReplicas(hasher, kind, shard, idx);
        ring := LibAdd(ring, e);
      }
      SplitEntries(hasher, kind, old(nodes), shard);
      added := true;
    }

    // Removes a shard; false, and no change, if it is not there.
    method Remove(shard: ShardId) returns (removed: bool)
      requires Valid()
      modifies this
      ensures Valid() && nodes == old(nodes) - {shard}
      ensures removed <==> shard in old(nodes)
      ensures !removed ==> ring == old(ring)
    {
      if shard !in nodes {
        assert nodes == nodes - {shard};
        return false;
      }
      nodes := nodes - {shard};
      SplitEntries(hasher, kind, nodes, shard);
      assert nodes + {shard} == old(nodes);
      for idx := 0 to Replicas(kind)
        invariant nodes == old(nodes) - {shard} && Sorted(ring)
        invariant forall e :: e in ring <==>
          IsEntry(hasher, kind, old(nodes), Replicas(kind), e) && !IsEntry(hasher, kind, {shard}, idx, e)
      {
        var e := EntryOf(hasher, Replica(kind, shard, idx));
        LibRemoveCorrect(ring, e.hash);
        MoreReplicas(hasher, kind, shard, idx);
        SameHashSameEntry(hasher, kind, old(nodes), e);
        ring := LibRemove(ring, e.hash);
      }
      DisjointEntries(hasher, kind, nodes, shard);
      removed := true;
    }

    // The shard that owns a key.
    function Get(k: nat): (owner: Option<ShardId>)
      reads this
    {
      Owner(ring, k)
    }
  }

  lemma NewReplica(h: Hasher, kind: Kind, nodes: set<ShardId>, shard: ShardId, idx: nat, ring: seq<Entry>)
    requires CollisionFree(h) && shard !in nodes && idx < Replicas(kind)
    requires forall e :: e in ring <==>
      IsEntry(h, kind, nodes, Replicas(kind), e) || IsEntry(h, kind, {shard}, idx, e)
    ensures forall x :: x in ring ==> x.hash != h.hash(Replica(kind, shard, idx))
  {
    forall x | x in ring
      ensures x.hash != h.hash(Replica(kind, shard, idx))
    {
      assert x.hash == h.hash(x.node);
    }
  }

  lemma MoreReplicas(h: Hasher, kind: Kind, shard: ShardId, idx: nat)
    ensures forall e :: IsEntry(h, kind, {shard}, idx + 1, e) <==>
      IsEntry(h, kind, {shard}, idx, e) || e == EntryOf(h, Replica(kind, shard, idx))
  {
    forall e
      ensures IsEntry(h, kind, {shard}, idx + 1, e) <==>
        IsEntry(h, kind, {shard}, idx, e) || e == EntryOf(h, Replica(kind, shard, idx))
    {
      if e == EntryOf(h, Replica(kind, shard, idx)) {
        assert e.node.shard == shard;
      }
    }
  }

  lemma SplitEntries(h: Hasher, kind: Kind, nodes: set<ShardId>, shard: ShardId)
    ensures forall e :: IsEntry(h, kind, nodes + {shard}, Replicas(kind), e) <==>
      IsEntry(h, kind, nodes, Replicas(kind), e) || IsEntry(h, kind, {shard}, Replicas(kind), e)
  {
  }

  lemma DisjointEntries(h: Hasher, kind: Kind, nodes: set<ShardId>, shard: ShardId)
    requires shard !in nodes
    ensures forall e :: IsEntry(h, kind, nodes, Replicas(kind), e) <==>
      IsEntry(h, kind, nodes + {shard}, Replicas(kind), e) && !IsEntry(h, kind, {shard}, Replicas(kind), e)
  {
  }

  lemma SameHashSameEntry(h: Hasher, kind: Kind, nodes: set<ShardId>, e: Entry)
    requires CollisionFree(h) && e == EntryOf(h, e.node)
    ensures forall x :: IsEntry(h, kind, nodes, Replicas(kind), x) && x.hash == e.hash ==> x == e
  {
    forall x | IsEntry(h, kind, nodes, Replicas(kind), x) && x.hash == e.hash
      ensures x == e
    {
      assert h.hash(x.node) == h.hash(e.node);
    }
  }
}
