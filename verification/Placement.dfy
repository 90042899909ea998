// Even placement of shard replicas over peers, and the choice of the least
// loaded peer for a new shard.
//
// Source: src/common/collections.rs
module Placement {
  import opened Common
  import opened Sorting

  type Peer = nat

  // ---------------------------------------------------------------------
  // Cycling over the pool

  function Count(s: seq<Peer>, p: Peer): nat {
    if s == [] then 0 else Count(s[..|s| - 1], p) + if s[|s| - 1] == p then 1 else 0
  }

  // How many shards have a replica on the peer, counting every replica.
  function Load(placement: seq<seq<Peer>>, p: Peer): nat {
    if placement == [] then 0 else Load(placement[..|placement| - 1], p) + Count(placement[|placement| - 1], p)
  }

  lemma {:induction false} CountIsMultiplicity(s: seq<Peer>, p: Peer)
    ensures Count(s, p) == multiset(s)[p]
    decreases |s|
  {
    if s != [] {
      CountIsMultiplicity(s[..|s| - 1], p);
      assert s == s[..|s| - 1] + [s[|s| - 1]];
    }
  }

  // The t-th peer that the cycling iterator yields.
  function Slot(pool: seq<Peer>, t: nat): Peer
    requires pool != []
  {
    pool[t % |pool|]
  }

  // How many of the first t steps land on position k of n.
  function Hits(t: nat, n: nat, k: nat): nat
    requires k < n
  {
    t / n + if k < t % n then 1 else 0
  }

  lemma NextStep(t: nat, n: nat)
    requires n > 0
    ensures (t + 1) % n == (if t % n + 1 == n then 0 else t % n + 1)
    ensures (t + 1) / n == t / n + if t % n + 1 == n then 1 else 0
  {
    var q, r := t / n, t % n;
    assert t + 1 == q * n + (r + 1);
    if r + 1 == n {
      assert t + 1 == (q + 1) * n + 0;
      Division(t + 1, n, q + 1, 0);
    } else {
      Division(t + 1, n, q, r + 1);
    }
  }

  lemma Division(t: nat, n: nat, q: nat, r: nat)
    requires n > 0 && r < n && t == q * n + r
    ensures t / n == q && t % n == r
  {
    var d := t / n - q;
    assert t == (t / n) * n + t % n;
    assert d * n == r - t % n;
    assert d > 0 ==> d * n >= n;
    assert d < 0 ==> d * n <= 0 - n;
  }

  lemma HitsStep(t: nat, n: nat, k: nat)
    requires k < n
    ensures Hits(t + 1, n, k) == Hits(t, n, k) + if t % n == k then 1 else 0
  {
    NextStep(t, n);
  }

  // Consecutive steps, no more than the pool is long, land on different peers.
  lemma {:induction false} StepsApart(base: nat, i: nat, n: nat)
    requires 0 < i < n
    ensures (base + i) % n != base % n
  {
    var q, r := base / n, base % n;
    assert base + i == q * n + (r + i);
    if r + i < n {
      Division(base + i, n, q, r + i);
    } else {
      assert base + i == (q + 1) * n + (r + i - n);
      Division(base + i, n, q + 1, r + i - n);
    }
  }

  // ---------------------------------------------------------------------
  // What the placement guarantees

  // The replicas of one shard: a stretch of the cycle.
  ghost predicate IsStretch(shard: seq<Peer>, pool: seq<Peer>, base: nat) {
    && (shard != [] ==> pool != [])
    && forall r :: 0 <= r < |shard| ==> shard[r] == Slot(pool, base + r)
  }

  // Where in the cycle the replicas of shard s begin.
  ghost function Base(s: nat, replicas: nat): nat {
    if s == 0 then 0 else Base(s - 1, replicas) + replicas
  }

  ghost predicate IsCyclic(placement: seq<seq<Peer>>, pool: seq<Peer>, replicas: nat) {
    forall s :: 0 <= s < |placement| ==> |placement[s]| == replicas && IsStretch(placement[s], pool, Base(s, replicas))
  }

  // Every shard has the replicas, on distinct peers of the pool, and the peers
  // carry equally many replicas up to one.
  ghost predicate IsEven(placement: seq<seq<Peer>>, pool: seq<Peer>, replicas: nat) {
    && (forall s :: 0 <= s < |placement| ==>
          && |placement[s]| == replicas && Distinct(placement[s])
          && forall r :: 0 <= r < replicas ==> placement[s][r] in pool)
    && (forall p, q :: p in pool && q in pool ==> Load(placement, p) <= Load(placement, q) + 1)
  }

  lemma {:induction false} StretchCount(shard: seq<Peer>, pool: seq<Peer>, base: nat, k: nat)
    requires Distinct(pool) && k < |pool| && IsStretch(shard, pool, base)
    ensures Count(shard, pool[k]) + Hits(base, |pool|, k) == Hits(base + |shard|, |pool|, k)
    decreases |shard|
  {
    if shard != [] {
      var m := |shard| - 1;
      StretchCount(shard[..m], pool, base, k);
      HitsStep(base + m, |pool|, k);
      assert shard[m] == pool[(base + m) % |pool|];
      assert shard[m] == pool[k] <==> (base + m) % |pool| == k;
    }
  }

  lemma {:induction false} CyclicLoad(placement: seq<seq<Peer>>, pool: seq<Peer>, replicas: nat, k: nat)
    requires Distinct(pool) && k < |pool| && IsCyclic(placement, pool, replicas)
    ensures Load(placement, pool[k]) == Hits(Base(|placement|, replicas), |pool|, k)
    decreases |placement|
  {
    if placement != [] {
      var m := |placement| - 1;
      var base := Base(m, replicas);
      StretchCount(placement[m], pool, base, k);
      CyclicLoad(placement[..m], pool, replicas, k);
    }
  }

  lemma StretchDistinct(shard: seq<Peer>, pool: seq<Peer>, base: nat)
    requires Distinct(pool) && IsStretch(shard, pool, base) && |shard| <= |pool|
    ensures Distinct(shard)
  {
    forall i, j | 0 <= i < j < |shard| ensures shard[i] != shard[j] {
      StepsApart(base + i, j - i, |pool|);
      assert shard[i] == pool[(base + i) % |pool|] && shard[j] == pool[(base + i + (j - i)) % |pool|];
    }
  }

  lemma CyclicIsEven(placement: seq<seq<Peer>>, pool: seq<Peer>, replicas: nat)
    requires Distinct(pool) && replicas <= |pool| && IsCyclic(placement, pool, replicas)
    ensures IsEven(placement, pool, replicas)
  {
    forall s | 0 <= s < |placement| ensures Distinct(placement[s]) {
      StretchDistinct(placement[s], pool, Base(s, replicas));
    }
    forall p, q | p in pool && q in pool ensures Load(placement, p) <= Load(placement, q) + 1 {
      var i :| 0 <= i < |pool| && pool[i] == p;
      var j :| 0 <= j < |pool| && pool[j] == q;
      CyclicLoad(placement, pool, replicas, i);
      CyclicLoad(placement, pool, replicas, j);
    }
  }

  lemma {:induction false} BaseIsProduct(s: nat, replicas: nat)
    ensures Base(s, replicas) == s * replicas
  {
    if s > 0 {
      BaseIsProduct(s - 1, replicas);
      assert (s - 1) * replicas + replicas == s * replicas;
    }
  }

  // Replica r of shard s is this one in the cycle of n peers.
  ghost function Turn(s: nat, r: nat, n: nat, replicationFactor: nat): (t: nat)
    ensures n > 0 ==> t < n
  {
    if n == 0 then 0 else (s * (if replicationFactor < n then replicationFactor else n) + r) % n
  }

  // Builds the placement by walking the shuffled pool round and round.
  method GenerateEvenPlacement(pool: seq<Peer>, shuffled: seq<Peer>, shardNumber: nat, replicationFactor: nat)
    returns (placement: seq<seq<Peer>>)
    requires Distinct(pool) && multiset(shuffled) == multiset(pool)
    ensures |placement| == shardNumber
    ensures forall s, r :: 0 <= s < shardNumber && 0 <= r < |placement[s]| ==>
      Turn(s, r, |pool|, replicationFactor) < |shuffled|
      && placement[s][r] == shuffled[Turn(s, r, |pool|, replicationFactor)]
    ensures IsEven(placement, pool, if replicationFactor < |pool| then replicationFactor else |pool|)
  {
    PermutationDistinct(pool, shuffled);
    var replicas := if replicationFactor < |shuffled| then replicationFactor else |shuffled|;
    placement := [];
    var next := 0;
    ghost var t := 0;
    for s := 0 to shardNumber
      invariant |placement| == s && t == Base(s, replicas)
      invariant shuffled != [] ==> next == t % |shuffled|
      invariant IsCyclic(placement, shuffled, replicas)
    {
      var shard := [];
      for r := 0 to replicas
        invariant |shard| == r && t == Base(s, replicas) + r
        invariant shuffled != [] ==> next == t % |shuffled|
        invariant IsStretch(shard, shuffled, Base(s, replicas))
      {
        NextStep(t, |shuffled|);
        shard := shard + [shuffled[next]];
        next := if next + 1 == |shuffled| then 0 else next + 1;
        t := t + 1;
      }
      placement := placement + [shard];
    }
    CyclicIsEven(placement, shuffled, replicas);
    forall s, r | 0 <= s < shardNumber && 0 <= r < |placement[s]|
      ensures Turn(s, r, |pool|, replicationFactor) < |shuffled|
      ensures placement[s][r] == shuffled[Turn(s, r, |pool|, replicationFactor)]
    {
      assert |shuffled| == |pool|;
      BaseIsProduct(s, replicas);
    }
  }

  // ---------------------------------------------------------------------
  // The least loaded peer

  // Replicas per peer; a registered peer without any counts as zero.
  ghost predicate IsLoads(loads: map<Peer, nat>, shards: seq<seq<Peer>>, registered: seq<Peer>) {
    && (forall p :: p in loads <==> p in registered || exists s :: 0 <= s < |shards| && p in shards[s])
    && (forall p :: p in loads ==> loads[p] == Load(shards, p))
  }

  ghost predicate LeastIn(loads: map<Peer, nat>, p: Peer) {
    p in loads && forall q :: q in loads ==> loads[p] <= loads[q]
  }

  lemma {:induction false} UnknownIsIdle(shards: seq<seq<Peer>>, p: Peer)
    requires forall s :: 0 <= s < |shards| ==> p !in shards[s]
    ensures Load(shards, p) == 0
    decreases |shards|
  {
    if shards != [] {
      UnknownIsIdle(shards[..|shards| - 1], p);
      AbsentIsZero(shards[|shards| - 1], p);
    }
  }

  lemma {:induction false} AbsentIsZero(s: seq<Peer>, p: Peer)
    requires p !in s
    ensures Count(s, p) == 0
    decreases |s|
  {
    if s != [] { AbsentIsZero(s[..|s| - 1], p); }
  }

  // Adds up the replicas of one shard.
  method CountShard(counts: map<Peer, nat>, shard: seq<Peer>) returns (more: map<Peer, nat>)
    ensures forall p :: p in more <==> p in counts || p in shard
    ensures forall p :: p in more ==> more[p] == (if p in counts then counts[p] else 0) + Count(shard, p)
  {
    more := counts;
    for r := 0 to |shard|
      invariant forall p :: p in more <==> p in counts || p in shard[..r]
      invariant forall p :: p in more ==> more[p] == (if p in counts then counts[p] else 0) + Count(shard[..r], p)
    {
      assert shard[..r + 1] == shard[..r] + [shard[r]];
      assert shard[..r + 1][..r] == shard[..r];
      if shard[r] !in more { AbsentIsZero(shard[..r], shard[r]); }
      more := more[shard[r] := (if shard[r] in more then more[shard[r]] else 0) + 1];
    }
    assert shard[..|shard|] == shard;
  }

  method CountLoads(shards: seq<seq<Peer>>, registered: seq<Peer>) returns (loads: map<Peer, nat>)
    ensures IsLoads(loads, shards, registered)
  {
    loads := map[];
    for s := 0 to |shards|
      invariant IsLoads(loads, shards[..s], [])
    {
      assert shards[..s + 1] == shards[..s] + [shards[s]];
      ghost var before := loads;
      forall p | p !in before ensures Load(shards[..s], p) == 0 { UnknownIsIdle(shards[..s], p); }
      loads := CountShard(loads, shards[s]);
      LoadsStep(before, loads, shards, s);
    }
    assert shards[..|shards|] == shards;
    for i := 0 to |registered|
      invariant IsLoads(loads, shards, registered[..i])
    {
      assert registered[..i + 1] == registered[..i] + [registered[i]];
      if registered[i] !in loads {
        UnknownIsIdle(shards, registered[i]);
        loads := loads[registered[i] := 0];
      }
    }
    assert registered[..|registered|] == registered;
  }

  lemma LoadsStep(before: map<Peer, nat>, after: map<Peer, nat>, shards: seq<seq<Peer>>, s: nat)
    requires s < |shards| && IsLoads(before, shards[..s], [])
    requires forall p :: p !in before ==> Load(shards[..s], p) == 0
    requires forall p :: p in after <==> p in before || p in shards[s]
    requires forall p :: p in after ==> after[p] == (if p in before then before[p] else 0) + Count(shards[s], p)
    ensures IsLoads(after, shards[..s + 1], [])
  {
    var longer := shards[..s + 1];
    assert longer[..s] == shards[..s] && longer[s] == shards[s];
    forall p ensures p in after <==> exists i :: 0 <= i < |longer| && p in longer[i] {
      if p in before {
        var i :| 0 <= i < s && p in shards[..s][i];
        assert p in longer[i];
      } else if p in shards[s] {
        assert p in longer[s];
      } else {
        assert forall i :: 0 <= i < s ==> longer[i] == shards[..s][i];
      }
    }
  }

  // Registered, or holding a replica.
  ghost predicate IsPeer(shards: seq<seq<Peer>>, registered: seq<Peer>, p: Peer) {
    p in registered || exists s :: 0 <= s < |shards| && p in shards[s]
  }

  // The peer for a new shard: one of least load, none only if nobody is known.
  method LeastLoadedPeer(shards: seq<seq<Peer>>, registered: seq<Peer>) returns (peer: Option<Peer>)
    ensures peer.None? ==> forall p :: !IsPeer(shards, registered, p)
    ensures peer.Some? ==> IsPeer(shards, registered, peer.value)
    ensures peer.Some? ==> forall q :: IsPeer(shards, registered, q) ==> Load(shards, peer.value) <= Load(shards, q)
    ensures peer.Some? ==> forall loads :: IsLoads(loads, shards, registered) ==> LeastIn(loads, peer.value)
  {
    var loads := CountLoads(shards, registered);
    assert forall p :: IsPeer(shards, registered, p) <==> p in loads;
    peer := None;
    var left := loads.Keys;
    while left != {}
      invariant left <= loads.Keys
      invariant peer.Some? ==> peer.value in loads
      invariant peer.None? <==> left == loads.Keys
      invariant peer.Some? ==> forall q :: q in loads && q !in left ==> loads[peer.value] <= loads[q]
      decreases |left|
    {
      var q :| q in left;
      if peer.None? || loads[q] < loads[peer.value] { peer := Some(q); }
      left := left - {q};
    }
    if peer.Some? {
      forall table | IsLoads(table, shards, registered) ensures LeastIn(table, peer.value) {
        LeastLoadedIsLeast(table, shards, registered, peer.value);
      }
    }
  }

  // The pick is a least element of the loads.
  lemma LeastLoadedIsLeast(loads: map<Peer, nat>, shards: seq<seq<Peer>>, registered: seq<Peer>, p: Peer)
    requires IsLoads(loads, shards, registered) && IsPeer(shards, registered, p)
    requires forall q :: IsPeer(shards, registered, q) ==> Load(shards, p) <= Load(shards, q)
    ensures LeastIn(loads, p)
  {
    forall q | q in loads ensures loads[p] <= loads[q] {
      assert IsPeer(shards, registered, q);
    }
  }

  ghost predicate Level(loads: map<Peer, nat>) {
    forall p, q :: p in loads && q in loads ==> loads[p] <= loads[q] + 1
  }

  function Picked(loads: map<Peer, nat>, p: Peer): map<Peer, nat>
    requires p in loads
  {
    loads[p := loads[p] + 1]
  }

  // Every pick goes to a peer that is least loaded at that time.
  ghost predicate PicksLeast(loads: map<Peer, nat>, picks: seq<Peer>)
    decreases |picks|
  {
    picks == [] || (LeastIn(loads, picks[0]) && PicksLeast(Picked(loads, picks[0]), picks[1..]))
  }

  ghost function AfterPicks(loads: map<Peer, nat>, picks: seq<Peer>): map<Peer, nat>
    requires PicksLeast(loads, picks)
    decreases |picks|
  {
    if picks == [] then loads else AfterPicks(Picked(loads, picks[0]), picks[1..])
  }

  ghost predicate AtMost(loads: map<Peer, nat>, top: nat) {
    forall p :: p in loads ==> loads[p] <= top
  }

  // A pick is what adding a shard on that peer does to the loads.
  lemma PickAddsShard(loads: map<Peer, nat>, shards: seq<seq<Peer>>, registered: seq<Peer>, p: Peer)
    requires IsLoads(loads, shards, registered) && p in loads
    ensures IsLoads(Picked(loads, p), shards + [[p]], registered)
  {
    var longer := shards + [[p]];
    assert longer[..|shards|] == shards;
    forall q ensures q in loads <==> q in registered || exists s :: 0 <= s < |longer| && q in longer[s] {
      if q in loads && q !in registered {
        var s :| 0 <= s < |shards| && q in shards[s];
        assert q in longer[s];
      }
    }
    assert forall q :: Count([p], q) == if q == p then 1 else 0;
  }

  // Any number of picks keeps level loads level.
  lemma {:induction false} PicksKeepLevel(loads: map<Peer, nat>, picks: seq<Peer>)
    requires PicksLeast(loads, picks)
    ensures Level(loads) ==> Level(AfterPicks(loads, picks))
    ensures AfterPicks(loads, picks).Keys == loads.Keys
    decreases |picks|
  {
    if picks != [] { PicksKeepLevel(Picked(loads, picks[0]), picks[1..]); }
  }

  // From any loads: as long as some peer stays below a bound that nobody
  // exceeds, picks exceed it neither; once no peer is below it, loads are level.
  lemma {:induction false} PicksFillUp(loads: map<Peer, nat>, picks: seq<Peer>, top: nat)
    requires PicksLeast(loads, picks) && AtMost(loads, top)
    ensures var after := AfterPicks(loads, picks); AtMost(after, top) || Level(after)
    decreases |picks|
  {
    if picks != [] {
      var p := picks[0];
      if loads[p] < top {
        PicksFillUp(Picked(loads, p), picks[1..], top);
      } else {
        assert Level(Picked(loads, p));
        PicksKeepLevel(Picked(loads, p), picks[1..]);
      }
    }
  }
}
