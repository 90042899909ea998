// Readiness of a node: the reading of the cluster's commit index from a quorum,
// and the health checker, which decides when /readyz may answer yes.
//
// Source: src/common/health.rs
module Health {
  import opened Common

  type Peer = nat
  type Uri = nat
  datatype Shard = Shard(collection: string, id: nat)

  // What the health checker sees from one wake-up to the next: the registered peers, how
  // far this node has applied, the commit indices that other addresses answered
  // with, and the unhealthy shards of this node.
  datatype World = World(
    addresses: map<Peer, Uri>,
    applied: nat,
    replies: map<Uri, nat>,
    unhealthy: set<Shard>)

  // ---------------------------------------------------------------------
  // Reading the commit index

  // The largest answer, or zero without any.
  ghost predicate IsHighest(replies: map<Uri, nat>, index: nat) {
    && (forall u :: u in replies ==> replies[u] <= index)
    && (replies == map[] ==> index == 0)
    && (replies != map[] ==> exists u :: u in replies && replies[u] == index)
  }

  // These peers are other than this one, and each answered with its own index.
  ghost predicate Answered(w: World, me: Peer, commits: map<Peer, nat>, responders: set<Peer>) {
    && me !in responders
    && forall p :: p in responders ==>
         && p in w.addresses && w.addresses[p] in w.replies
         && p in commits && w.replies[w.addresses[p]] == commits[p]
  }

  ghost predicate AllHold(commits: map<Peer, nat>, holders: set<Peer>, c: nat) {
    forall p :: p in holders ==> p in commits && c <= commits[p]
  }

  lemma {:induction false} MoreThanRoom(a: set<Peer>, b: set<Peer>, all: set<Peer>)
    requires a <= all && b <= all && |a| + |b| > |all|
    ensures exists p :: p in a && p in b
  {
    SubsetIsSmaller(a + b, all);
    assert |a + b| + |a * b| == |a| + |b|;
    var p :| p in a * b;
  }

  lemma {:induction false} SubsetIsSmaller(a: set<Peer>, b: set<Peer>)
    requires a <= b
    ensures |a| <= |b|
    decreases a
  {
    if a != {} {
      var x :| x in a;
      SubsetIsSmaller(a - {x}, b - {x});
    }
  }

  // Half of the peers answering, next to this one, is enough to see any index
  // that a majority holds.
  lemma QuorumReading(w: World, me: Peer, commits: map<Peer, nat>, responders: set<Peer>, holders: set<Peer>, c: nat,
                      index: nat)
    requires me in w.addresses && me in commits
    requires Answered(w, me, commits, responders) && |responders| >= |w.addresses| / 2
    requires holders <= w.addresses.Keys && |holders| > |w.addresses| / 2 && AllHold(commits, holders, c)
    requires IsHighest(w.replies, index)
    ensures c <= commits[me] || c <= index
  {
    assert |responders + {me}| == |responders| + 1;
    MoreThanRoom(responders + {me}, holders, w.addresses.Keys);
    var p :| p in responders + {me} && p in holders;
    if p != me { assert w.replies[w.addresses[p]] <= index; }
  }

  // Every choice of so many other peers, together with this one, contains a
  // holder exactly if this node is one or fewer others than asked are not.
  lemma ReadingThreshold(all: set<Peer>, me: Peer, holders: set<Peer>, asked: nat)
    requires me in all && holders <= all && asked < |all|
    ensures (forall r: set<Peer> :: r <= all - {me} && |r| == asked ==> !((r + {me}) !! holders))
        <==> me in holders || |all - {me} - holders| < asked
  {
    var rest := all - {me} - holders;
    if me !in holders && |rest| >= asked {
      var r := Choose(rest, asked);
      assert r <= all - {me} && |r| == asked && (r + {me}) !! holders;
    } else if me !in holders {
      forall r: set<Peer> | r <= all - {me} && |r| == asked ensures !((r + {me}) !! holders) {
        ReadingMeets(r, all - {me}, holders);
      }
    }
  }

  lemma ReadingMeets(r: set<Peer>, others: set<Peer>, holders: set<Peer>)
    requires r <= others && |others - holders| < |r|
    ensures !(r !! holders)
  {
    if r !! holders { SubsetIsSmaller(r, others - holders); assert false; }
  }

  ghost function Choose(s: set<Peer>, n: nat): (r: set<Peer>)
    requires n <= |s|
    ensures r <= s && |r| == n
    decreases n
  {
    if n == 0 then {} else
    var x :| x in s;
    Choose(s - {x}, n - 1) + {x}
  }

  // The peers that hold the index as committed.
  ghost function Holders(commits: map<Peer, nat>, c: nat): set<Peer> {
    set p | p in commits && c <= commits[p]
  }

  // So many others answered, each with its own index, and neither this node nor
  // any of them has reached c.
  ghost predicate Misses(w: World, me: Peer, commits: map<Peer, nat>, responders: set<Peer>, c: nat, index: nat) {
    && w.addresses.Keys == commits.Keys
    && Answered(w, me, commits, responders)
    && IsHighest(w.replies, index) && index < c && me in commits && commits[me] < c
  }

  // Every peer at an address of its own, and exactly these answer.
  ghost function Reading(commits: map<Peer, nat>, responders: set<Peer>): World {
    World(map p | p in commits :: p, 0, map p | p in responders && p in commits :: commits[p], {})
  }

  lemma {:induction false} HighestExists(replies: map<Uri, nat>, c: nat) returns (index: nat)
    requires forall u :: u in replies ==> replies[u] < c
    ensures IsHighest(replies, index) && (c > 0 ==> index < c)
    decreases |replies|
  {
    if replies == map[] {
      index := 0;
    } else {
      var u :| u in replies;
      var rest := replies - {u};
      index := HighestExists(rest, c);
      if rest == map[] || index < replies[u] { index := replies[u]; }
      assert forall x :: x in replies ==> x == u || x in rest;
      assert exists x :: x in replies && replies[x] == index by {
        if index != replies[u] {
          var x :| x in rest && rest[x] == index;
          assert replies[x] == index;
        }
      }
    }
  }

  // A reading of so many answers can miss an index exactly if this node does not
  // hold it as committed and at least so many others do not.
  lemma ReadingCanMiss(me: Peer, commits: map<Peer, nat>, c: nat, asked: nat)
    requires me in commits
    ensures
      (exists w, responders, index :: |responders| == asked && Misses(w, me, commits, responders, c, index))
      <==> me !in Holders(commits, c) && |commits.Keys - {me} - Holders(commits, c)| >= asked
  {
    var rest := commits.Keys - {me} - Holders(commits, c);
    if me !in Holders(commits, c) && |rest| >= asked {
      var r := Choose(rest, asked);
      var w := Reading(commits, r);
      var index := HighestExists(w.replies, c);
      assert Misses(w, me, commits, r, c, index);
    }
    forall w, responders, index | |responders| == asked && Misses(w, me, commits, responders, c, index)
      ensures me !in Holders(commits, c) && |rest| >= asked
    {
      forall p | p in responders ensures p in rest {
        assert w.replies[w.addresses[p]] <= index;
      }
      SubsetIsSmaller(responders, rest);
    }
  }

  // A majority has stored the index, and some peer holds it as committed.
  ghost predicate IsCommitted(stored: map<Peer, nat>, commits: map<Peer, nat>, c: nat) {
    && stored.Keys == commits.Keys
    && (forall p :: p in commits ==> commits[p] <= stored[p])
    && 2 * |set p | p in stored && c <= stored[p]| > |stored|
    && Holders(commits, c) != {}
  }

  lemma ThreePeers(m: map<Peer, nat>)
    requires m.Keys == {0, 1, 2}
    ensures |m| == 3
  {
    assert |m| == |m.Keys|;
  }

  lemma StoredExample(stored: map<Peer, nat>, commits: map<Peer, nat>)
    requires stored == map[0 := 5, 1 := 5, 2 := 5] && commits == map[0 := 4, 1 := 4, 2 := 5]
    ensures IsCommitted(stored, commits, 5) && Holders(commits, 5) == {2}
  {
    ThreePeers(stored);
    assert (set p | p in stored && 5 <= stored[p]) == {0, 1, 2};
    assert 2 in Holders(commits, 5);
  }

  // That is not enough for a reading of half of the others: of three peers all
  // have stored index five, and the leader alone knows that it is committed.
  lemma StoredIsNotEnough(stored: map<Peer, nat>, commits: map<Peer, nat>)
    requires stored == map[0 := 5, 1 := 5, 2 := 5] && commits == map[0 := 4, 1 := 4, 2 := 5]
    ensures IsCommitted(stored, commits, 5)
    ensures exists w, responders, index :: |responders| == |commits| / 2 && Misses(w, 0, commits, responders, 5, index)
  {
    StoredExample(stored, commits);
    ThreePeers(commits);
    assert commits.Keys - {0} - {2} == {1};
    ReadingCanMiss(0, commits, 5, 1);
  }

  // ---------------------------------------------------------------------
  // The health checker

  datatype Progress = Waiting | Alone | Done

  ghost predicate Single(w: World) {
    |w.addresses| <= 1
  }

  // The cluster's index read at i was applied by j, and the next reading, at k, is
  // the same; a node that is alone at k has nothing to wait for.
  ghost predicate CaughtUp(worlds: seq<World>, i: nat, j: nat, k: nat) {
    && i <= j && k == j + 1 < |worlds|
    && exists index: nat ::
         && IsHighest(worlds[i].replies, index) && index <= worlds[j].applied
         && (Single(worlds[k]) || IsHighest(worlds[k].replies, index))
  }

  // Every shard that was unhealthy at k has been seen healthy by t.
  ghost predicate Healed(worlds: seq<World>, k: nat, t: nat) {
    && k <= t < |worlds|
    && forall shard :: shard in worlds[k].unhealthy ==> SeenHealthy(worlds, shard, k, t)
  }

  ghost predicate SeenHealthy(worlds: seq<World>, shard: Shard, k: nat, t: nat) {
    t < |worlds| && exists u :: k <= u <= t && shard !in worlds[u].unhealthy
  }

  // The grounds on which a node may report itself ready. One that waits to join a
  // cluster has seen another peer before.
  ghost predicate Earned(worlds: seq<World>, waitForBootstrap: bool, t: nat) {
    && t < |worlds|
    && (waitForBootstrap ==> exists b :: 0 <= b < t && !Single(worlds[b]))
    && (Single(worlds[t])
        || exists i: nat, j: nat, k: nat :: CaughtUp(worlds, i, j, k) && Healed(worlds, k, t))
  }

  // The wake-ups up to b were spent on joining a cluster, if the node waits for
  // that, and there have been other peers ever since.
  ghost predicate JoinedAt(worlds: seq<World>, waitForBootstrap: bool, b: nat) {
    && (if waitForBootstrap then forall i :: 0 <= i < b && i < |worlds| ==> Single(worlds[i]) else b == 0)
    && forall i :: b < i < |worlds| ==> !Single(worlds[i])
  }

  // Caught up, but some shard that was unhealthy then never healed.
  ghost predicate Ailing(worlds: seq<World>) {
    exists i: nat, j: nat, k: nat :: CaughtUp(worlds, i, j, k) && !Healed(worlds, k, |worlds| - 1)
  }

  // From then on nothing changes: everything read so far is applied, and all
  // shards are healthy.
  ghost predicate SettledFrom(worlds: seq<World>, from: nat) {
    && from < |worlds| && worlds[from].unhealthy == {}
    && (forall i :: from <= i < |worlds| ==> worlds[i] == worlds[from])
    && (forall i, u :: 0 <= i < |worlds| && u in worlds[i].replies ==> worlds[i].replies[u] <= worlds[from].applied)
  }

  lemma HighestIsUnique(replies: map<Uri, nat>, a: nat, b: nat)
    requires IsHighest(replies, a) && IsHighest(replies, b)
    ensures a == b
  {
  }

  class HealthChecker {
    const waitForBootstrap: bool
    var isReady: bool

    constructor (waitForBootstrap: bool)
      ensures !isReady && this.waitForBootstrap == waitForBootstrap
    {
      this.waitForBootstrap, isReady := waitForBootstrap, false;
    }

    method ClusterCommitIndex(w: World) returns (index: Option<nat>)
      ensures index.None? <==> Single(w)
      ensures index.Some? ==> IsHighest(w.replies, index.value)
    {
      if |w.addresses| <= 1 { return None; }
      var highest := 0;
      var left := w.replies.Keys;
      while left != {}
        invariant left <= w.replies.Keys
        invariant forall u :: u in w.replies && u !in left ==> w.replies[u] <= highest
        invariant left == w.replies.Keys ==> highest == 0
        invariant left != w.replies.Keys ==> exists u :: u in w.replies && w.replies[u] == highest
        decreases |left|
      {
        var u :| u in left;
        if highest <= w.replies[u] { highest := w.replies[u]; }
        left := left - {u};
      }
      index := Some(highest);
    }

    // Waits for a wake-up that finds other peers.
    method AwaitPeers(worlds: seq<World>) returns (p: Progress, t: nat)
      requires worlds != []
      ensures t < |worlds| && (p == Done || p == Waiting)
      ensures p == Done ==> !Single(worlds[t])
      ensures p == Waiting ==> t == |worlds| - 1 && Single(worlds[t])
      ensures forall i :: 0 <= i < t ==> Single(worlds[i])
    {
      t := 0;
      while |worlds[t].addresses| <= 1
        invariant t < |worlds|
        invariant forall i :: 0 <= i < t ==> Single(worlds[i])
        decreases |worlds| - t
      {
        if t + 1 == |worlds| { return Waiting, t; }
        t := t + 1;
      }
      p := Done;
    }

    method AwaitCommit(worlds: seq<World>, t0: nat, index: nat) returns (p: Progress, t: nat)
      requires t0 < |worlds|
      ensures t0 <= t < |worlds|
      ensures forall i :: t0 <= i < t ==> worlds[i].applied < index
      ensures p == Done ==> index <= worlds[t].applied
      ensures p == Alone ==> Single(worlds[t])
      ensures p == Waiting ==> t == |worlds| - 1 && worlds[t].applied < index
      ensures p != Alone ==> forall i :: t0 < i <= t ==> !Single(worlds[i])
    {
      t := t0;
      while worlds[t].applied < index
        invariant t0 <= t < |worlds| && forall i :: t0 < i <= t ==> !Single(worlds[i])
        invariant forall i :: t0 <= i < t ==> worlds[i].applied < index
        decreases |worlds| - t
      {
        if t + 1 == |worlds| { return Waiting, t; }
        t := t + 1;
        if |worlds[t].addresses| <= 1 { return Alone, t; }
      }
      p := Done;
    }

    // Follows the cluster's commit index until two readings in a row agree.
    method CatchUp(worlds: seq<World>, t0: nat, first: nat) returns (p: Progress, t: nat)
      requires t0 < |worlds| && !Single(worlds[t0]) && IsHighest(worlds[t0].replies, first)
      ensures t0 <= t < |worlds|
      ensures p == Done ==> exists i: nat, j: nat :: CaughtUp(worlds, i, j, t)
      ensures p == Alone ==> Single(worlds[t])
      ensures p == Waiting ==> forall i :: t0 <= i < |worlds| ==> !Single(worlds[i])
      ensures forall from: nat :: SettledFrom(worlds, from) && t0 <= from + 1 && from + 3 <= |worlds| ==>
        p != Waiting && t <= from + 2
    {
      t := t0;
      var index := first;
      while true
        invariant t0 <= t < |worlds| && IsHighest(worlds[t].replies, index)
        invariant forall i :: t0 <= i <= t ==> !Single(worlds[i])
        invariant forall from: nat :: SettledFrom(worlds, from) && t0 <= from + 1 ==> t <= from + 1
        decreases |worlds| - t
      {
        ghost var asked := t;
        p, t := AwaitCommit(worlds, t, index);
        assert forall from: nat :: SettledFrom(worlds, from) && t0 <= from + 1 ==>
          (asked >= from ==> t == asked) && (asked < from ==> t <= from);
        if p != Done || t + 1 == |worlds| {
          if p == Done { p := Waiting; }
          return;
        }
        ghost var j := t;
        t := t + 1;
        var answer := ClusterCommitIndex(worlds[t]);
        if answer.None? || answer.value == index {
          assert CaughtUp(worlds, asked, j, t);
          return Done, t;
        }
        forall from: nat | SettledFrom(worlds, from) && t0 <= from + 1 ensures t <= from + 1 {
          if asked >= from { HighestIsUnique(worlds[from].replies, index, answer.value); assert false; }
        }
        index := answer.value;
      }
    }

    // Waits until each shard that was unhealthy at first has been seen healthy;
    // shards that fall ill later are not waited for.
    method AwaitShards(worlds: seq<World>, t0: nat) returns (p: Progress, t: nat)
      requires t0 < |worlds|
      ensures t0 <= t < |worlds| && (p == Done || p == Waiting)
      ensures p == Done ==> Healed(worlds, t0, t)
      ensures p == Waiting ==> t == |worlds| - 1 && !Healed(worlds, t0, t)
      ensures forall from: nat :: SettledFrom(worlds, from) ==> p == Done && (t <= from || t == t0)
    {
      t := t0;
      var unhealthy := worlds[t].unhealthy;
      while unhealthy != {}
        invariant t0 <= t < |worlds|
        invariant forall shard :: shard in worlds[t0].unhealthy ==>
          (shard !in unhealthy <==> SeenHealthy(worlds, shard, t0, t))
        invariant unhealthy <= worlds[t].unhealthy * worlds[t0].unhealthy
        invariant forall from: nat :: SettledFrom(worlds, from) ==> t <= from || t == t0
        decreases |worlds| - t
      {
        if t + 1 == |worlds| {
          var shard :| shard in unhealthy;
          assert !SeenHealthy(worlds, shard, t0, t);
          return Waiting, t;
        }
        t := t + 1;
        var current := worlds[t].unhealthy;
        unhealthy := set shard | shard in unhealthy && shard in current;
        forall shard | shard in worlds[t0].unhealthy
          ensures shard !in unhealthy <==> SeenHealthy(worlds, shard, t0, t)
        {
          Step(worlds, shard, t0, t);
        }
      }
      p := Done;
    }

    static lemma Step(worlds: seq<World>, shard: Shard, k: nat, t: nat)
      requires k < t < |worlds|
      ensures SeenHealthy(worlds, shard, k, t) <==>
        SeenHealthy(worlds, shard, k, t - 1) || shard !in worlds[t].unhealthy
    {
      if shard !in worlds[t].unhealthy { assert SeenHealthy(worlds, shard, k, t); }
    }

    // From the first reading on: catches up, then waits for the shards.
    method Follow(worlds: seq<World>, t0: nat) returns (p: Progress, t: nat)
      requires t0 < |worlds|
      ensures t0 <= t < |worlds|
      ensures p == Alone ==> Single(worlds[t])
      ensures p == Done ==> exists i: nat, j: nat, k: nat :: CaughtUp(worlds, i, j, k) && Healed(worlds, k, t)
      ensures p == Waiting ==> Ailing(worlds) || forall i :: t0 <= i < |worlds| ==> !Single(worlds[i])
      ensures forall from: nat :: SettledFrom(worlds, from) && t0 <= from + 1 && from + 3 <= |worlds| ==> p != Waiting
    {
      var answer := ClusterCommitIndex(worlds[t0]);
      if answer.None? { return Alone, t0; }
      p, t := CatchUp(worlds, t0, answer.value);
      if p != Done { return; }
      p, t := AwaitShards(worlds, t);
    }

    // Runs the checker over the wake-ups given. It reports ready only on good
    // grounds, never takes it back, and does report ready once things settle. If
    // it does not, it is still joining, still behind, or some shard is ill.
    method ExecImpl(worlds: seq<World>) returns (t: nat)
      requires worlds != []
      modifies this
      ensures t < |worlds|
      ensures isReady && !old(isReady) ==> Earned(worlds, waitForBootstrap, t)
      ensures old(isReady) ==> isReady
      ensures !isReady ==> Ailing(worlds) || exists b: nat :: JoinedAt(worlds, waitForBootstrap, b)
      ensures !isReady ==> forall from: nat ::
        SettledFrom(worlds, from) && (waitForBootstrap ==> !Single(worlds[from])) ==> |worlds| < from + 3
    {
      var p;
      p, t := Done, 0;
      if waitForBootstrap { p, t := AwaitPeers(worlds); }
      assert forall from: nat ::
        SettledFrom(worlds, from) && (waitForBootstrap ==> !Single(worlds[from])) ==> t <= from;
      if p == Waiting || t + 1 == |worlds| {
        assert JoinedAt(worlds, waitForBootstrap, t);
        return;
      }
      ghost var b := t;
      p, t := Follow(worlds, t + 1);
      if p == Waiting {
        assert Ailing(worlds) || JoinedAt(worlds, waitForBootstrap, b);
        return;
      }
      isReady := true;
    }
  }

  // What readiness earned by catching up means: with half of the others having
  // answered the deciding reading, everything a majority held then was applied.
  lemma ReadyIsCaughtUp(worlds: seq<World>, me: Peer, i: nat, j: nat, k: nat, commits: map<Peer, nat>,
                        responders: set<Peer>, holders: set<Peer>, c: nat)
    requires CaughtUp(worlds, i, j, k) && !Single(worlds[k])
    requires me in worlds[k].addresses && me in commits && commits[me] == worlds[j].applied
    requires Answered(worlds[k], me, commits, responders) && |responders| >= |worlds[k].addresses| / 2
    requires holders <= worlds[k].addresses.Keys && |holders| > |worlds[k].addresses| / 2
      && AllHold(commits, holders, c)
    ensures c <= worlds[j].applied
  {
    var index: nat :| IsHighest(worlds[k].replies, index) && index <= worlds[j].applied;
    QuorumReading(worlds[k], me, commits, responders, holders, c, index);
  }
}
