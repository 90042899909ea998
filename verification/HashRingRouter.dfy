// Two-ring router that carries a collection through resharding.
//
// Source: lib/collection/src/hash_ring.rs
module HashRingRouter {
  import opened Common
  import opened HashRing

  const HASH_RING_SHARD_SCALE: nat := 100

  datatype Direction = Up | Down

  // What the router routes by. Node sets are enough: they determine the rings.
  datatype View =
    | Single(nodes: set<ShardId>)
    | Resharding(old_nodes: set<ShardId>, new_nodes: set<ShardId>)

  function AddView(v: View, shard: ShardId): View {
    match v
    case Single(nodes) => Single(nodes + {shard})
    case Resharding(a, b) =>
      if shard !in a && shard !in b then Resharding(a + {shard}, b + {shard}) else v
  }

  function StartView(v: View, shard: ShardId, direction: Direction): View {
    var (a, b) := match v case Single(nodes) => (nodes, nodes) case Resharding(a, b) => (a, b);
    match direction
    case Up => Resharding(a - {shard}, b + {shard})
    case Down => Resharding(a + {shard}, b - {shard})
  }

  function CommitView(v: View): View {
    match v case Single(_) => v case Resharding(_, b) => Single(b)
  }

  function AbortView(v: View, shard: ShardId, direction: Direction): View {
    match v
    case Single(_) => v
    case Resharding(a, b) =>
      var (a', b') := if direction.Up? then (a - {shard}, b - {shard}) else (a + {shard}, b + {shard});
      if a' == b' then Single(a') else v
  }

  // In the ring that routes now, or in the one that a commit leaves.
  ghost predicate Before(v: View, t: ShardId) {
    match v case Single(nodes) => t in nodes case Resharding(a, _) => t in a
  }

  ghost predicate After(v: View, t: ShardId) {
    match v case Single(nodes) => t in nodes case Resharding(_, b) => t in b
  }

  // Whatever goes on, a start takes the shard out of one ring and puts it into the
  // other, and touches no other shard.
  lemma StartMembership(v: View, shard: ShardId, direction: Direction, t: ShardId)
    ensures StartView(v, shard, direction).Resharding?
    ensures t in StartView(v, shard, direction).old_nodes <==> if t == shard then direction.Down? else Before(v, t)
    ensures t in StartView(v, shard, direction).new_nodes <==> if t == shard then direction.Up? else After(v, t)
  {
  }

  lemma CommitMembership(v: View, t: ShardId)
    ensures CommitView(v).Single? && (t in CommitView(v).nodes <==> After(v, t))
  {
  }

  // An abort leaves one ring exactly if the rings differ in no other shard than
  // the one named, and then without it (up) or with it (down).
  lemma AbortMembership(v: View, shard: ShardId, direction: Direction, t: ShardId)
    requires v.Resharding?
    ensures AbortView(v, shard, direction).Single? <==>
      forall u :: u != shard ==> (u in v.old_nodes <==> u in v.new_nodes)
    ensures AbortView(v, shard, direction).Single? ==>
      (t in AbortView(v, shard, direction).nodes <==> if t == shard then direction.Down? else t in v.old_nodes)
    ensures AbortView(v, shard, direction).Resharding? ==> AbortView(v, shard, direction) == v
  {
    var a, b := v.old_nodes, v.new_nodes;
    if forall u :: u != shard ==> (u in a <==> u in b) {
      assert a - {shard} == b - {shard} && a + {shard} == b + {shard};
    } else {
      var u :| u != shard && !(u in a <==> u in b);
      assert !(u in a - {shard} <==> u in b - {shard}) && !(u in a + {shard} <==> u in b + {shard});
    }
  }

  // Scaling down asserts that a shard is left.
  predicate CanStart(v: View, direction: Direction) {
    direction.Down? ==> match v case Single(nodes) => |nodes| > 1 case Resharding(_, b) => |b| > 1
  }

  // Owners of a key, the old one first, each once.
  function Merge(a: Option<ShardId>, b: Option<ShardId>): seq<ShardId> {
    match (a, b)
    case (None, None) => []
    case (Some(x), None) => [x]
    case (None, Some(y)) => [y]
    case (Some(x), Some(y)) => if x == y then [x] else [x, y]
  }

  datatype Mode = SingleRing(ring: Ring) | TwoRings(before: Ring, after: Ring)

  class Router {
    const hasher: Hasher
    const kind: Kind
    var mode: Mode

    ghost function Rings(): set<Ring>
      reads this
    {
      match mode case SingleRing(r) => {r} case TwoRings(a, b) => {a, b}
    }

    ghost predicate Valid()
      reads this, Rings()
    {
      && (forall r :: r in Rings() ==> r.Valid() && r.hasher == hasher && r.kind == kind)
      && (mode.TwoRings? ==> mode.before != mode.after)
    }

    ghost function Nodes(): View
      reads this, Rings()
    {
      match mode
      case SingleRing(r) => Single(r.nodes)
      case TwoRings(a, b) => Resharding(a.nodes, b.nodes)
    }

    constructor (hasher: Hasher, kind: Kind)
      requires CollisionFree(hasher)
      ensures Valid() && Nodes() == Single({}) && this.hasher == hasher && this.kind == kind && fresh(Rings())
    {
      this.hasher, this.kind := hasher, kind;
      var ring := new Ring(hasher, kind);
      mode := SingleRing(ring);
    }

    // What a collection starts with: a fair ring of a hundred virtual nodes a shard.
    constructor Collection(hasher: Hasher)
      requires CollisionFree(hasher)
      ensures Valid() && Nodes() == Single({}) && this.hasher == hasher && kind == Fair(100) && fresh(Rings())
    {
      this.hasher, this.kind := hasher, Fair(HASH_RING_SHARD_SCALE);
      var ring := new Ring(hasher, Fair(HASH_RING_SHARD_SCALE));
      mode := SingleRing(ring);
    }

    method Add(shard: ShardId) returns (added: bool)
      requires Valid()
      modifies Rings()
      ensures Valid() && mode == old(mode)
      ensures Nodes() == AddView(old(Nodes()), shard)
      ensures old(Nodes()).Single? ==>
        Nodes() == Single(old(Nodes()).nodes + {shard}) && (added <==> shard !in old(Nodes()).nodes)
      ensures old(Nodes()).Resharding? ==>
        && (added <==> shard !in old(Nodes()).old_nodes && shard !in old(Nodes()).new_nodes)
        && Nodes() == if added then Resharding(old(Nodes()).old_nodes + {shard}, old(Nodes()).new_nodes + {shard})
                      else old(Nodes())
    {
      match mode
      case SingleRing(r) =>
        added := r.Add(shard);
        assert added ==> shard in r.nodes && shard !in old(r.nodes);
      case TwoRings(a, b) =>
        if shard !in a.nodes && shard !in b.nodes {
          var _ := a.Add(shard);
          var _ := b.Add(shard);
          assert shard in a.nodes && shard !in old(a.nodes);
          added := true;
        } else {
          added := false;
        }
    }

    method StartResharding(shard: ShardId, direction: Direction)
      requires Valid() && CanStart(Nodes(), direction)
      modifies this, Rings()
      ensures Valid() && fresh(Rings() - old(Rings()))
      ensures Nodes() == StartView(old(Nodes()), shard, direction)
    {
      if mode.SingleRing? {
        var a := new Ring.Clone(mode.ring);
        var b := new Ring.Clone(mode.ring);
        mode := TwoRings(a, b);
      }
      var a, b := mode.before, mode.after;
      match direction
      case Up =>
        var _ := a.Remove(shard);
        var _ := b.Add(shard);
      case Down =>
        var _ := a.Add(shard);
        var _ := b.Remove(shard);
    }

    method CommitResharding() returns (done: bool)
      requires Valid()
      modifies this
      ensures Valid() && fresh(Rings() - old(Rings()))
      ensures Nodes() == CommitView(old(Nodes())) && (done <==> old(Nodes()).Resharding?)
      ensures Nodes().Single? && forall t :: t in Nodes().nodes <==> After(old(Nodes()), t)
    {
      if mode.SingleRing? {
        return false;
      }
      var ring := new Ring.Clone(mode.after);
      mode := SingleRing(ring);
      done := true;
    }

    // Works on clones and gives up unless both rings have become equal. Rings
    // are compared entry by entry; canonical form makes that exact.
    method AbortResharding(shard: ShardId, direction: Direction) returns (done: bool)
      requires Valid()
      modifies this
      ensures Valid() && fresh(Rings() - old(Rings()))
      ensures Nodes() == AbortView(old(Nodes()), shard, direction)
      ensures done <==> old(Nodes()).Resharding? && Nodes().Single?
    {
      if mode.SingleRing? {
        return false;
      }
      var a := new Ring.Clone(mode.before);
      var b := new Ring.Clone(mode.after);
      match direction {
        case Up =>
          var _ := a.Remove(shard);
          var _ := b.Remove(shard);
        case Down =>
          var _ := a.Add(shard);
          var _ := b.Add(shard);
      }
      if a.nodes == b.nodes {
        RingIsCanonical(hasher, kind, a.nodes, a.ring, b.ring);
      }
      if a.nodes == b.nodes && a.ring == b.ring {
        mode := SingleRing(a);
        done := true;
      } else {
        done := false;
      }
    }

    // One operation of a run.
    method Perform(op: Op, ghost r: Run)
      requires Valid() && Nodes() == r.view && Allowed(r, op)
      modifies this, Rings()
      ensures Valid() && fresh(Rings() - old(Rings()))
      ensures Nodes() == Step(r, op).view
    {
      match op
      case AddShard(s) => var _ := Add(s);
      case Start(s, d) => StartResharding(s, d);
      case Commit => var _ := CommitResharding();
      case Abort(s, d) => var _ := AbortResharding(s, d);
    }

    function Get(k: nat): (owners: seq<ShardId>)
      requires Valid()
      reads this, Rings()
      ensures forall ring, before, after ::
        RoutesBy(hasher, kind, Nodes(), ring, before, after) ==>
        owners == if Nodes().Single? then Merge(Owner(ring, k), None) else Merge(Owner(before, k), Owner(after, k))
    {
      GetIsCanonical(k);
      match mode
      case SingleRing(r) => Merge(r.Get(k), None)
      case TwoRings(a, b) => Merge(a.Get(k), b.Get(k))
    }

    lemma GetIsCanonical(k: nat)
      requires Valid()
      ensures forall ring, before, after ::
        RoutesBy(hasher, kind, Nodes(), ring, before, after) ==>
        match mode
        case SingleRing(r) => Owner(ring, k) == Owner(r.ring, k)
        case TwoRings(a, b) => Owner(before, k) == Owner(a.ring, k) && Owner(after, k) == Owner(b.ring, k)
    {
      forall ring, before, after | RoutesBy(hasher, kind, Nodes(), ring, before, after)
        ensures match mode
          case SingleRing(r) => Owner(ring, k) == Owner(r.ring, k)
          case TwoRings(a, b) => Owner(before, k) == Owner(a.ring, k) && Owner(after, k) == Owner(b.ring, k)
      {
        match mode
        case SingleRing(r) =>
          assert r in Rings();
          RingIsCanonical(hasher, kind, r.nodes, ring, r.ring);
        case TwoRings(a, b) =>
          assert a in Rings() && b in Rings();
          RingIsCanonical(hasher, kind, a.nodes, before, a.ring);
          RingIsCanonical(hasher, kind, b.nodes, after, b.ring);
      }
    }

    // Whether a point belongs to a shard; the filter of the new ring decides.
    predicate IsInShard(k: nat, shard: ShardId): (inShard: bool)
      requires Valid()
      reads this, Rings()
      ensures forall ring, before, after ::
        RoutesBy(hasher, kind, Nodes(), ring, before, after) ==>
        (inShard <==> FilterCheck(if Nodes().Single? then ring else after, shard, k))
    {
      GetIsCanonical(k);
      match mode
      case SingleRing(r) => r.Get(k) == Some(shard)
      case TwoRings(_, b) => b.Get(k) == Some(shard)
    }
  }

  // The canonical rings of a view.
  ghost predicate RoutesBy(h: Hasher, kind: Kind, v: View, ring: seq<Entry>, before: seq<Entry>, after: seq<Entry>) {
    match v
    case Single(nodes) => IsRing(h, kind, nodes, ring)
    case Resharding(a, b) => IsRing(h, kind, a, before) && IsRing(h, kind, b, after)
  }

  // ---------------------------------------------------------------------
  // Whole runs

  datatype Op =
    | AddShard(shard: ShardId)
    | Start(shard: ShardId, direction: Direction)
    | Commit
    | Abort(shard: ShardId, direction: Direction)

  // A router with a record of the resharding in progress: its target, the nodes
  // before it started, and the shards added since.
  datatype Run = Run(view: View, target: Option<(ShardId, Direction)>, pre: set<ShardId>, added: set<ShardId>)

  function Step(r: Run, op: Op): Run {
    match op
    case AddShard(s) =>
      var v := AddView(r.view, s);
      r.(view := v, added := if r.view.Resharding? && v != r.view then r.added + {s} else r.added)
    case Start(s, d) =>
      var v := StartView(r.view, s, d);
      if r.view.Single? then Run(v, Some((s, d)), r.view.nodes, {}) else r.(view := v)
    case Commit => Ended(r, CommitView(r.view))
    case Abort(s, d) => Ended(r, AbortView(r.view, s, d))
  }

  function Ended(r: Run, v: View): Run {
    if v.Single? then Run(v, None, v.nodes, {}) else r.(view := v)
  }

  // A start happens from a single ring, or repeats the one in progress.
  predicate Allowed(r: Run, op: Op) {
    op.Start? ==>
      && CanStart(r.view, op.direction)
      && (r.view.Single? || r.target == Some((op.shard, op.direction)))
  }

  // Only a start can be refused: a second one for something else, and one that would
  // take away the last shard.
  lemma RefusedExactly(r: Run, op: Op)
    ensures !Allowed(r, op) <==>
      && op.Start?
      && ((r.view.Resharding? && r.target != Some((op.shard, op.direction)))
          || (op.direction.Down? && |(if r.view.Single? then r.view.nodes else r.view.new_nodes)| <= 1))
  {
  }

  function RunAll(r: Run, ops: seq<Op>): Run {
    if ops == [] then r else Step(RunAll(r, ops[..|ops| - 1]), ops[|ops| - 1])
  }

  predicate AllAllowed(r: Run, ops: seq<Op>) {
    ops == [] || (AllAllowed(r, ops[..|ops| - 1]) && Allowed(RunAll(r, ops[..|ops| - 1]), ops[|ops| - 1]))
  }

  // The nodes a resharding would leave without its target's change.
  function Base(r: Run): set<ShardId> {
    r.pre + r.added
  }

  // While resharding, the two node sets differ by exactly the target shard,
  // which only the new ring has when scaling up and only the old one when
  // scaling down.
  ghost predicate Consistent(r: Run) {
    match r.view
    case Single(_) => r.target.None?
    case Resharding(a, b) =>
      && r.target.Some?
      && var (s, d) := r.target.value;
         && s !in r.added
         && (if d.Up? then a == Base(r) - {s} && b == Base(r) + {s}
             else a == Base(r) + {s} && b == Base(r) - {s})
  }

  lemma StepConsistent(r: Run, op: Op)
    requires Consistent(r) && Allowed(r, op)
    ensures Consistent(Step(r, op))
  {
    var n := Step(r, op);
    match op
    case AddShard(s) =>
      if r.view.Resharding? && n.view != r.view {
        var (t, d) := r.target.value;
        assert s != t;
        assert Base(n) == Base(r) + {s};
      }
    case Start(s, d) =>
      if r.view.Resharding? {
        assert Base(n) == Base(r);
      }
    case Commit =>
    case Abort(s, d) =>
  }

  lemma {:induction false} RunConsistent(nodes: set<ShardId>, ops: seq<Op>)
    requires AllAllowed(Run(Single(nodes), None, nodes, {}), ops)
    ensures Consistent(RunAll(Run(Single(nodes), None, nodes, {}), ops))
    decreases |ops|
  {
    if ops != [] {
      var n := |ops| - 1;
      RunConsistent(nodes, ops[..n]);
      StepConsistent(RunAll(Run(Single(nodes), None, nodes, {}), ops[..n]), ops[n]);
    }
  }

  // In every ring there is.
  ghost predicate Everywhere(v: View, x: ShardId) {
    Before(v, x) && After(v, x)
  }

  // A shard that a single ring is given, or that neither ring has, is in every
  // ring afterwards.
  lemma AddedEverywhere(v: View, x: ShardId)
    requires v.Single? || (x !in v.old_nodes && x !in v.new_nodes)
    ensures Everywhere(AddView(v, x), x)
  {
  }

  // It stays there until a resharding of that very shard starts.
  lemma StaysEverywhere(r: Run, op: Op, x: ShardId)
    requires Consistent(r) && Allowed(r, op) && Everywhere(r.view, x) && !(op.Start? && op.shard == x)
    ensures Everywhere(Step(r, op).view, x)
  {
    if r.view.Resharding? && op.Abort? {
      var s := r.target.value.0;
      assert s in r.view.old_nodes <==> s !in r.view.new_nodes;
      AbortMembership(r.view, op.shard, op.direction, x);
    }
  }

  // So in every run a shard that was added, also in the middle of a resharding,
  // is routed to, and is in the ring that commit or abort leaves.
  lemma {:induction false} AddedStays(nodes: set<ShardId>, before: seq<Op>, x: ShardId, after: seq<Op>)
    requires AllAllowed(Run(Single(nodes), None, nodes, {}), before + [AddShard(x)] + after)
    requires
      var v := RunAll(Run(Single(nodes), None, nodes, {}), before).view;
      v.Single? || (x !in v.old_nodes && x !in v.new_nodes)
    requires forall i :: 0 <= i < |after| ==> !(after[i].Start? && after[i].shard == x)
    ensures Everywhere(RunAll(Run(Single(nodes), None, nodes, {}), before + [AddShard(x)] + after).view, x)
    decreases |after|
  {
    var start, ops := Run(Single(nodes), None, nodes, {}), before + [AddShard(x)] + after;
    if after == [] {
      assert ops[..|ops| - 1] == before;
      AddedEverywhere(RunAll(start, before).view, x);
    } else {
      var n := |after| - 1;
      assert ops[..|ops| - 1] == before + [AddShard(x)] + after[..n];
      AddedStays(nodes, before, x, after[..n]);
      RunConsistent(nodes, ops[..|ops| - 1]);
      StaysEverywhere(RunAll(start, ops[..|ops| - 1]), after[n], x);
    }
  }

  // In every reachable resharding state: commit leaves exactly the new nodes;
  // aborting the target in its own direction takes the target out (up) or puts
  // it in (down) and so restores the nodes before the start plus those added
  // since if and only if the target was absent (up) or present (down) then;
  // aborting it in the other direction commits instead; aborting any other
  // shard changes nothing.
  lemma EndOfResharding(r: Run, other: ShardId, direction: Direction)
    requires Consistent(r) && r.view.Resharding?
    ensures
      var (s, d) := r.target.value;
      var up, down := Single(Base(r) + {s}), Single(Base(r) - {s});
      && CommitView(r.view) == (if d.Up? then up else down)
      && AbortView(r.view, s, d) == (if d.Up? then down else up)
      && (AbortView(r.view, s, d) == Single(Base(r)) <==> (s in r.pre <==> d.Down?))
      && AbortView(r.view, s, if d.Up? then Down else Up) == CommitView(r.view)
      && (other != s ==> AbortView(r.view, other, direction) == r.view)
  {
    var (s, d) := r.target.value;
    var base := Base(r);
    assert (base + {s}) - {s} == base - {s} && (base - {s}) + {s} == base + {s};
    assert base == base + {s} <==> s in base;
    assert base == base - {s} <==> s !in base;
    if other != s {
      var a, b := r.view.old_nodes, r.view.new_nodes;
      assert s in a <==> s !in b;
      assert s in a - {other} <==> s !in b - {other};
      assert s in a + {other} <==> s !in b + {other};
    }
  }

  // Starting from any reachable single ring and aborting right away.
  lemma AbortUndoesStart(nodes: set<ShardId>, s: ShardId, d: Direction)
    ensures AbortView(StartView(Single(nodes), s, d), s, d) == Single(nodes) <==> (s in nodes <==> d.Down?)
  {
    var r := Step(Run(Single(nodes), None, nodes, {}), Start(s, d));
    assert Base(r) == nodes;
    EndOfResharding(r, s, d);
  }

  // ---------------------------------------------------------------------
  // Routing while resharding

  // Every key reaches both its old and its new owner; it has two owners exactly
  // when they differ, and then the target shard is the new one (up) or the old
  // one (down).
  lemma ReshardingCoversBoth(h: Hasher, kind: Kind, r: Run, before: seq<Entry>, after: seq<Entry>, k: nat)
    requires CollisionFree(h) && Consistent(r) && r.view.Resharding?
    requires IsRing(h, kind, r.view.old_nodes, before) && IsRing(h, kind, r.view.new_nodes, after)
    ensures BothOwners(Owner(before, k), Owner(after, k), Merge(Owner(before, k), Owner(after, k)))
    ensures Owner(before, k) != Owner(after, k) ==>
      MovedTo(r.target.value.0, r.target.value.1, Owner(before, k), Owner(after, k))
  {
    var (s, d) := r.target.value;
    if d.Up? {
      MinimalDisruption(h, kind, Base(r), s, before, after, k);
    } else {
      MinimalDisruption(h, kind, Base(r), s, after, before, k);
    }
  }

  // The old owner first, then the new one if it is another.
  ghost predicate BothOwners(a: Option<ShardId>, b: Option<ShardId>, owners: seq<ShardId>) {
    && (a.Some? ==> owners != [] && owners[0] == a.value)
    && (b.Some? ==> owners != [] && owners[|owners| - 1] == b.value)
    && |owners| == (if a.Some? then 1 else 0) + (if b.Some? && b != a then 1 else 0)
  }

  lemma MergeMeans(a: Option<ShardId>, b: Option<ShardId>)
    ensures BothOwners(a, b, Merge(a, b))
  {
  }

  ghost predicate MovedTo(s: ShardId, d: Direction, a: Option<ShardId>, b: Option<ShardId>) {
    if d.Up? then b == Some(s) && a != Some(s) else a == Some(s) && b != Some(s)
  }

  // ---------------------------------------------------------------------
  // Point filters

  predicate FilterCheck(ring: seq<Entry>, expected: ShardId, k: nat) {
    Owner(ring, k) == Some(expected)
  }

  // The filters of the shards of a non-empty ring let every point through once.
  lemma FiltersPartition(h: Hasher, kind: Kind, nodes: set<ShardId>, ring: seq<Entry>, k: nat)
    requires IsRing(h, kind, nodes, ring) && nodes != {} && Replicas(kind) > 0
    ensures exists s :: s in nodes && FilterCheck(ring, s, k)
    ensures forall s, t :: FilterCheck(ring, s, k) && FilterCheck(ring, t, k) ==> s == t
  {
    OwnerIsNode(h, kind, nodes, ring, k);
    assert FilterCheck(ring, Owner(ring, k).value, k);
  }

  // Scaling up a non-empty ring, the new filter of the target accepts exactly
  // the points that change owner.
  lemma TargetFilterIsMigration(h: Hasher, kind: Kind, r: Run, before: seq<Entry>, after: seq<Entry>, k: nat)
    requires CollisionFree(h) && Consistent(r) && r.view.Resharding? && r.target.value.1.Up?
    requires IsRing(h, kind, r.view.old_nodes, before) && IsRing(h, kind, r.view.new_nodes, after)
    ensures FilterCheck(after, r.target.value.0, k) <==> Owner(after, k) != Owner(before, k)
  {
    var (s, d) := r.target.value;
    ReshardingCoversBoth(h, kind, r, before, after, k);
    OwnerIsNode(h, kind, r.view.old_nodes, before, k);
  }
}
