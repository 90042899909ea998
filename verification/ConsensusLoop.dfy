// The consensus loop: batching of incoming requests, one membership change at a
// time, and promotion of learners.
//
// The raft crate is a record of functions on the node's state, restricted only
// by the contract WellBehaved.
//
// Source: src/consensus.rs (start, advance_node, try_promote_learner,
// find_learner_to_promote)
module ConsensusLoop {
  import opened Common

  type Peer = nat

  datatype Request =
    | Join(peer: Peer)
    | Removal(peer: Peer)
    | Promotion(peer: Peer)
    | Operation(op: nat)
    | FromPeer(message: nat)

  predicate ConfChange(q: Request) {
    q.Join? || q.Removal? || q.Promotion?
  }

  // The stored log and its commit index and learners, the entries not stored
  // yet, the progress of the peers, and anything else the crate keeps. Every
  // time the node becomes leader a new reign begins.
  datatype Node = Node(
    leader: bool,
    reign: nat,
    stored: seq<Request>,
    commit: nat,
    learners: set<Peer>,
    unstored: seq<Request>,
    matched: map<Peer, nat>,
    hidden: nat)

  function LogLength(n: Node): nat {
    |n.stored| + |n.unstored|
  }

  datatype Raft = Raft(
    handle: (Node, Request) -> Option<Node>,
    tick: Node -> Node,
    onReady: Node -> Node)

  // ---------------------------------------------------------------------
  // What the raft crate guarantees

  // A new reign begins whenever the node becomes leader; a leader only adds to
  // its own log.
  ghost predicate Proceeds(n: Node, m: Node) {
    && n.reign <= m.reign
    && (m.leader && m.reign == n.reign ==> n.leader && LogLength(n) <= LogLength(m))
    && n.commit <= m.commit
  }

  // Between two passes of on_ready nothing reaches the store.
  ghost predicate KeepsStore(n: Node, m: Node) {
    m.stored == n.stored && m.commit == n.commit && m.learners == n.learners
  }

  // A leader that accepts a promotion has added it to its log.
  ghost predicate Handled(n: Node, q: Request, m: Node) {
    && Proceeds(n, m) && KeepsStore(n, m)
    && (q.Promotion? && n.leader ==>
          m.leader && m.reign == n.reign && LogLength(n) < LogLength(m))
  }

  // Everything unstored is stored by on_ready.
  ghost predicate WellBehaved(raft: Raft) {
    && (forall n, q :: raft.handle(n, q).Some? ==> Handled(n, q, raft.handle(n, q).value))
    && (forall n :: Proceeds(n, raft.tick(n)) && KeepsStore(n, raft.tick(n)))
    && (forall n :: Proceeds(n, raft.onReady(n)) && raft.onReady(n).unstored == [])
  }

  // A node that handles what it can by itself keeps the contract.
  lemma ContractIsMet()
    ensures exists raft :: WellBehaved(raft)
  {
    var raft := Raft(
      (n: Node, q) => if n.leader then Some(n.(unstored := n.unstored + [q])) else None,
      (n: Node) => n,
      (n: Node) => n.(stored := n.stored + n.unstored, unstored := []));
    assert WellBehaved(raft);
  }

  // ---------------------------------------------------------------------
  // What the loop did, in order

  datatype Act =
    | Accepted(request: Request, at: Node)
    | Passed

  // Any two accepted membership changes have a pass of on_ready between them.
  ghost predicate Separated(acts: seq<Act>) {
    forall i, j :: 0 <= i < j < |acts| && Change(acts[i]) && Change(acts[j]) ==>
      exists k :: i < k < j && acts[k].Passed?
  }

  // An accepted request that adds, removes or promotes a peer.
  ghost predicate Change(a: Act) {
    a.Accepted? && (a.request.Join? || a.request.Removal? || a.request.Promotion?)
  }

  // The promotion was proposed by a leader with nothing in flight, for a learner
  // that holds the whole log.
  ghost predicate SoundPromotion(a: Act) {
    a.Accepted? && a.request.Promotion? ==>
      var n := a.at;
      && n.leader
      && n.commit == LogLength(n)
      && a.request.peer in n.learners
      && a.request.peer in n.matched && n.matched[a.request.peer] == n.commit
  }

  // The index a proposal gets in the log of the leader that accepts it.
  function IndexOf(a: Act): nat
    requires a.Accepted?
  {
    LogLength(a.at) + 1
  }

  // While the node stays leader its log still holds the promotion.
  ghost predicate Remembered(a: Act, n: Node) {
    a.Accepted? && a.request.Promotion? ==>
      && a.at.reign <= n.reign
      && (n.leader && n.reign == a.at.reign ==> IndexOf(a) <= LogLength(n))
  }

  // When a node promotes twice without losing leadership in between, the first
  // promotion is committed before the second is proposed.
  ghost predicate OneAtATime(acts: seq<Act>) {
    forall i, j :: 0 <= i < j < |acts| && IsPromotion(acts[i]) && IsPromotion(acts[j]) ==>
      acts[i].at.reign == acts[j].at.reign ==> IndexOf(acts[i]) <= acts[j].at.commit
  }

  predicate IsPromotion(a: Act) {
    a.Accepted? && a.request.Promotion?
  }

  ghost predicate Sound(acts: seq<Act>, n: Node) {
    && Separated(acts)
    && OneAtATime(acts)
    && (forall i :: 0 <= i < |acts| ==> SoundPromotion(acts[i]) && Remembered(acts[i], n))
  }

  // No membership change since the last pass of on_ready.
  ghost predicate Quiet(acts: seq<Act>) {
    forall i :: 0 <= i < |acts| && Change(acts[i]) ==> exists k :: i < k < |acts| && acts[k].Passed?
  }

  lemma ProceedsKeepsSound(acts: seq<Act>, n: Node, m: Node)
    requires Sound(acts, n) && Proceeds(n, m)
    ensures Sound(acts, m)
  {
  }

  lemma Accepting(acts: seq<Act>, n: Node, q: Request, m: Node)
    requires Sound(acts, n) && Handled(n, q, m) && Quiet(acts)
    requires q.Promotion? ==> SoundPromotion(Accepted(q, n))
    ensures Sound(acts + [Accepted(q, n)], m)
    ensures !Change(Accepted(q, n)) ==> Quiet(acts + [Accepted(q, n)])
  {
    var a := Accepted(q, n);
    StaysSeparated(acts, a);
    StaysOneAtATime(acts, a, n);
    ProceedsKeepsSound(acts, n, m);
    if !Change(a) { StaysQuiet(acts, a); }
  }

  // A promotion that is accepted now finds all earlier ones of its reign committed.
  lemma StaysOneAtATime(acts: seq<Act>, a: Act, n: Node)
    requires OneAtATime(acts) && forall i :: 0 <= i < |acts| ==> Remembered(acts[i], n)
    requires IsPromotion(a) ==> a.at == n && SoundPromotion(a)
    ensures OneAtATime(acts + [a])
  {
    var longer := acts + [a];
    forall i, j | 0 <= i < j < |longer| && IsPromotion(longer[i]) && IsPromotion(longer[j])
      && longer[i].at.reign == longer[j].at.reign
      ensures IndexOf(longer[i]) <= longer[j].at.commit
    {
      assert longer[i] == acts[i] && Remembered(acts[i], n);
      if j < |acts| { assert longer[j] == acts[j]; }
    }
  }

  lemma StaysSeparated(acts: seq<Act>, a: Act)
    requires Separated(acts) && Quiet(acts)
    ensures Separated(acts + [a])
  {
    var longer := acts + [a];
    forall i, j | 0 <= i < j < |longer| && Change(longer[i]) && Change(longer[j])
      ensures exists k :: i < k < j && longer[k].Passed?
    {
      assert longer[i] == acts[i];
      if j == |acts| {
        var k :| i < k < |acts| && acts[k].Passed?;
        assert longer[k].Passed?;
      } else {
        assert longer[j] == acts[j];
        var k :| i < k < j && acts[k].Passed?;
        assert longer[k].Passed?;
      }
    }
  }

  lemma StaysQuiet(acts: seq<Act>, a: Act)
    requires Quiet(acts) && !Change(a)
    ensures Quiet(acts + [a])
  {
    var longer := acts + [a];
    forall i | 0 <= i < |longer| && Change(longer[i])
      ensures exists k :: i < k < |longer| && longer[k].Passed?
    {
      assert longer[i] == acts[i];
      var k :| i < k < |acts| && acts[k].Passed?;
      assert longer[k].Passed?;
    }
  }

  lemma Passing(acts: seq<Act>, n: Node, m: Node)
    requires Sound(acts, n) && Proceeds(n, m)
    ensures Sound(acts + [Passed], m) && Quiet(acts + [Passed])
  {
    ProceedsKeepsSound(acts, n, m);
    PassedSeparates(acts);
    StaysOneAtATime(acts, Passed, m);
  }

  lemma PassedSeparates(acts: seq<Act>)
    requires Separated(acts)
    ensures Separated(acts + [Passed]) && Quiet(acts + [Passed])
  {
    var longer := acts + [Passed];
    forall i, j | 0 <= i < j < |longer| && Change(longer[i]) && Change(longer[j])
      ensures exists k :: i < k < j && longer[k].Passed?
    {
      assert longer[i] == acts[i] && longer[j] == acts[j];
      var k :| i < k < j && acts[k].Passed?;
      assert longer[k].Passed?;
    }
    assert longer[|acts|].Passed?;
  }

  // ---------------------------------------------------------------------
  // The loop

  const RAFT_BATCH_SIZE: nat := 128

  // How many ticks are reported: few enough, when peers were heard from, not to
  // start an election by themselves.
  function ReportTicks(raftMessages: nat, elapsed: nat, electionTick: nat): (r: nat)
    ensures r <= elapsed && (raftMessages == 0 ==> r == elapsed)
    ensures raftMessages > 0 ==> r <= 1 || r + 5 <= electionTick
    ensures raftMessages > 0 && r < elapsed ==> r == 1 || r + 5 == electionTick
    ensures raftMessages > 0 && r < elapsed && electionTick > 6 ==> r + 5 == electionTick
    ensures raftMessages > 0 && electionTick > 1 ==> r < electionTick
  {
    if raftMessages > 0 then
      var cap := if electionTick > 6 then electionTick - 5 else 1;
      if elapsed < cap then elapsed else cap
    else elapsed
  }

  // What arrives during one pass: the requests received before the timeout, and
  // the ticks that went by.
  datatype Arrival = Arrival(requests: seq<Request>, elapsed: nat)

  // ---------------------------------------------------------------------
  // What a pass does, request by request

  // The node after it was offered these requests, and those it took.
  ghost function Fed(raft: Raft, n: Node, requests: seq<Request>): (Node, seq<Act>) {
    if requests == [] then (n, []) else
    var k := |requests| - 1;
    var (m, taken) := Fed(raft, n, requests[..k]);
    var after := raft.handle(m, requests[k]);
    if after.Some? then (after.value, taken + [Accepted(requests[k], m)]) else (m, taken)
  }

  lemma FedOne(raft: Raft, n: Node, requests: seq<Request>, k: nat, m: Node, taken: seq<Act>)
    requires k < |requests| && Fed(raft, n, requests[..k]) == (m, taken)
    ensures
      var after := raft.handle(m, requests[k]);
      Fed(raft, n, requests[..k + 1]) ==
      if after.Some? then (after.value, taken + [Accepted(requests[k], m)]) else (m, taken)
  {
    assert requests[..k + 1][..k] == requests[..k];
  }

  // The batch is over: a change of membership was taken, or 128 requests were.
  ghost predicate BatchEnds(taken: seq<Act>) {
    taken != [] && (Change(taken[|taken| - 1]) || |taken| >= 128)
  }

  // Every request is offered until the batch is over, and none after that.
  ghost predicate Batched(raft: Raft, n: Node, requests: seq<Request>, handled: nat) {
    && handled <= |requests|
    && (forall k :: 0 <= k < handled ==> !BatchEnds(Fed(raft, n, requests[..k]).1))
    && (handled < |requests| ==> BatchEnds(Fed(raft, n, requests[..handled]).1))
  }

  // So a batch takes at most 128 requests and at most one change of membership,
  // the last.
  lemma {:induction false} BatchLimits(raft: Raft, n: Node, requests: seq<Request>, handled: nat)
    requires handled <= |requests|
    requires forall k :: 0 <= k < handled ==> !BatchEnds(Fed(raft, n, requests[..k]).1)
    ensures
      var taken := Fed(raft, n, requests[..handled]).1;
      |taken| <= 128 && forall i :: 0 <= i < |taken| - 1 ==> !Change(taken[i])
    decreases handled
  {
    if handled > 0 {
      BatchLimits(raft, n, requests, handled - 1);
      assert requests[..handled][..handled - 1] == requests[..handled - 1];
      assert !BatchEnds(Fed(raft, n, requests[..handled - 1]).1);
    }
  }

  // How many of the requests taken came from peers.
  ghost function PeerMessages(taken: seq<Act>): nat {
    |set i | 0 <= i < |taken| && taken[i].Accepted? && taken[i].request.FromPeer?|
  }

  lemma OnePeerMessage(taken: seq<Act>, a: Act)
    ensures PeerMessages(taken + [a]) == PeerMessages(taken) + if a.Accepted? && a.request.FromPeer? then 1 else 0
  {
    var longer := taken + [a];
    var before := set i | 0 <= i < |taken| && taken[i].Accepted? && taken[i].request.FromPeer?;
    var after := set i | 0 <= i < |longer| && longer[i].Accepted? && longer[i].request.FromPeer?;
    assert after == if a.Accepted? && a.request.FromPeer? then before + {|taken|} else before;
  }

  // A learner that has the whole log of a leader with nothing in flight.
  ghost predicate Promotable(n: Node, p: Peer) {
    && n.leader && n.commit == |n.stored|
    && p in n.learners && p in n.matched && n.matched[p] == n.commit
  }

  // One promotion, or else a batch.
  ghost predicate Advanced(raft: Raft, n: Node, requests: seq<Request>, m: Node, taken: seq<Act>, raftMessages: nat) {
    if exists p :: Promotable(n, p)
    then
      && raftMessages == 0
      && exists p :: Promotable(n, p) && raft.handle(n, Promotion(p)) == Some(m)
           && taken == [Accepted(Promotion(p), n)]
    else
      && raftMessages == PeerMessages(taken)
      && exists handled: nat :: Batched(raft, n, requests, handled) && Fed(raft, n, requests[..handled]) == (m, taken)
  }

  ghost function Ticked(raft: Raft, n: Node, ticks: nat): Node {
    if ticks == 0 then n else raft.tick(Ticked(raft, n, ticks - 1))
  }

  ghost predicate Passes(raft: Raft, electionTick: nat, n: Node, arrival: Arrival, m: Node, acts: seq<Act>) {
    exists mid, taken, raftMessages ::
      && Advanced(raft, n, arrival.requests, mid, taken, raftMessages)
      && m == raft.onReady(Ticked(raft, mid, ReportTicks(raftMessages, arrival.elapsed, electionTick)))
      && acts == taken + [Passed]
  }

  // One pass after the other, one for each arrival.
  ghost predicate Ran(raft: Raft, electionTick: nat, n: Node, arrivals: seq<Arrival>, m: Node, acts: seq<Act>)
    decreases |arrivals|, 1
  {
    if arrivals == [] then m == n && acts == []
    else RanAndPasses(raft, electionTick, n, arrivals[..|arrivals| - 1], arrivals[|arrivals| - 1], m, acts)
  }

  ghost predicate RanAndPasses(raft: Raft, electionTick: nat, n: Node, arrivals: seq<Arrival>, last: Arrival, m: Node,
                               acts: seq<Act>)
    decreases |arrivals|, 2
  {
    exists mid, cut :: 0 <= cut <= |acts|
      && Ran(raft, electionTick, n, arrivals, mid, acts[..cut])
      && Passes(raft, electionTick, mid, last, m, acts[cut..])
  }

  // Clients and peers do not send promotions: only the leader proposes them.
  predicate FromOutside(requests: seq<Request>) {
    forall i :: 0 <= i < |requests| ==> !requests[i].Promotion?
  }

  class Consensus {
    const raft: Raft
    const electionTick: nat
    var node: Node
    // The requests handed to the node so far in this pass, and everything done.
    ghost var acts: seq<Act>

    constructor (raft: Raft, electionTick: nat, node: Node)
      requires WellBehaved(raft) && node.unstored == []
      ensures this.raft == raft && this.node == node && acts == [] && Ready()
    {
      this.raft, this.electionTick, this.node, acts := raft, electionTick, node, [];
    }

    ghost predicate Valid()
      reads this
    {
      WellBehaved(raft) && Sound(acts, node)
    }

    // Where a pass begins: the last pass of on_ready left nothing unstored.
    ghost predicate Ready()
      reads this
    {
      Valid() && Quiet(acts) && node.unstored == []
    }

    // A learner that has the whole committed log; only a leader knows progress.
    method FindLearnerToPromote() returns (learner: Option<Peer>)
      ensures learner.Some? ==>
        && learner.value in node.learners && learner.value in node.matched
        && node.matched[learner.value] == node.commit
      ensures learner.None? ==> forall p :: p in node.learners && p in node.matched ==> node.matched[p] != node.commit
    {
      var peers := node.matched.Keys;
      while peers != {}
        invariant peers <= node.matched.Keys
        invariant forall p :: p in node.matched && p !in peers && p in node.learners ==> node.matched[p] != node.commit
        decreases |peers|
      {
        var p :| p in peers;
        if p in node.learners && node.matched[p] == node.commit { return Some(p); }
        peers := peers - {p};
      }
      learner := None;
    }

    // Returns whether a promotion was proposed. With something in flight, or
    // without leadership, nothing happens.
    method TryPromoteLearner() returns (promoted: Result<bool, ()>)
      requires Ready()
      modifies this`node, this`acts
      ensures Valid()
      ensures promoted == Ok(false) <==> forall p :: !Promotable(old(node), p)
      ensures promoted == Ok(true) ==> exists p ::
        && Promotable(old(node), p) && raft.handle(old(node), Promotion(p)) == Some(node)
        && acts == old(acts) + [Accepted(Promotion(p), old(node))]
      ensures promoted.Err? ==> exists p :: Promotable(old(node), p) && raft.handle(old(node), Promotion(p)).None?
      ensures promoted != Ok(true) ==> acts == old(acts) && node == old(node)
    {
      if !node.leader { return Ok(false); }
      if node.commit != |node.stored| { return Ok(false); }
      var learner := FindLearnerToPromote();
      if learner.None? { return Ok(false); }
      assert Promotable(node, learner.value);
      var after := raft.handle(node, Promotion(learner.value));
      if after.None? { return Err(()); }
      Accepting(acts, node, Promotion(learner.value), after.value);
      acts := acts + [Accepted(Promotion(learner.value), node)];
      node := after.value;
      promoted := Ok(true);
    }

    // Hands requests to the node until a membership change is accepted, the
    // batch is full, or nothing more arrives. Refused requests are dropped and
    // do not count.
    method HandleBatch(requests: seq<Request>) returns (handled: nat, raftMessages: nat)
      requires Ready() && FromOutside(requests)
      modifies this`node, this`acts
      ensures Valid() && Batched(raft, old(node), requests, handled)
      ensures node == Fed(raft, old(node), requests[..handled]).0
      ensures acts == old(acts) + Fed(raft, old(node), requests[..handled]).1
      ensures raftMessages == PeerMessages(Fed(raft, old(node), requests[..handled]).1)
    {
      handled, raftMessages := 0, 0;
      var events := 0;
      ghost var taken: seq<Act> := [];
      while handled < |requests|
        invariant handled <= |requests| && Valid() && Quiet(acts)
        invariant Fed(raft, old(node), requests[..handled]) == (node, taken) && acts == old(acts) + taken
        invariant forall k :: 0 <= k < handled ==> !BatchEnds(Fed(raft, old(node), requests[..k]).1)
        invariant !BatchEnds(taken) && |taken| == events && raftMessages == PeerMessages(taken)
      {
        var q := requests[handled];
        ghost var at := node;
        FedOne(raft, old(node), requests, handled, at, taken);
        handled := handled + 1;
        var accepted := Offer(q);
        if !accepted { continue; }
        OnePeerMessage(taken, Accepted(q, at));
        taken := taken + [Accepted(q, at)];
        events := events + 1;
        if q.FromPeer? { raftMessages := raftMessages + 1; }
        if events >= RAFT_BATCH_SIZE || ConfChange(q) { return; }
      }
    }

    // Hands one request to the node, which may refuse it.
    method Offer(q: Request) returns (taken: bool)
      requires Valid() && Quiet(acts) && !q.Promotion?
      modifies this`node, this`acts
      ensures Valid() && (taken <==> raft.handle(old(node), q).Some?)
      ensures taken ==> node == raft.handle(old(node), q).value && acts == old(acts) + [Accepted(q, old(node))]
      ensures taken && !q.Join? && !q.Removal? ==> Quiet(acts)
      ensures !taken ==> acts == old(acts) && node == old(node)
    {
      var after := raft.handle(node, q);
      taken := after.Some?;
      if taken {
        Accepting(acts, node, q, after.value);
        acts := acts + [Accepted(q, node)];
        node := after.value;
      }
    }

    // A promotion takes the place of the batch; one that the node refuses ends the
    // loop.
    method AdvanceNode(requests: seq<Request>) returns (raftMessages: Result<nat, ()>)
      requires Ready() && FromOutside(requests)
      modifies this`node, this`acts
      ensures Valid() && old(acts) <= acts
      ensures raftMessages.Ok? ==>
        Advanced(raft, old(node), requests, node, acts[|old(acts)|..], raftMessages.value)
      ensures raftMessages.Err? ==> exists p ::
        Promotable(old(node), p) && raft.handle(old(node), Promotion(p)).None?
      ensures raftMessages.Err? ==> node == old(node) && acts == old(acts)
    {
      var promoted := TryPromoteLearner();
      if promoted.Err? { return Err(()); }
      if promoted.value { return Ok(0); }
      var handled, received := HandleBatch(requests);
      raftMessages := Ok(received);
    }

    method Tick(n: nat)
      requires Valid()
      modifies this`node
      ensures Valid() && node == Ticked(raft, old(node), n)
    {
      for i := 0 to n
        invariant Valid() && node == Ticked(raft, old(node), i)
      {
        ProceedsKeepsSound(acts, node, raft.tick(node));
        node := raft.tick(node);
      }
    }

    // One pass: requests or a promotion, the ticks that went by, on_ready.
    method Pass(arrival: Arrival) returns (failed: bool)
      requires Ready() && FromOutside(arrival.requests)
      modifies this`node, this`acts
      ensures Ready() && old(acts) <= acts
      ensures failed ==> acts == old(acts) && node == old(node)
      ensures failed ==> exists p :: Promotable(node, p) && raft.handle(node, Promotion(p)).None?
      ensures !failed ==> Passes(raft, electionTick, old(node), arrival, node, acts[|old(acts)|..])
    {
      var received := AdvanceNode(arrival.requests);
      if received.Err? { return true; }
      ghost var mid, taken := node, acts[|old(acts)|..];
      Tick(ReportTicks(received.value, arrival.elapsed, electionTick));
      Passing(acts, node, raft.onReady(node));
      acts := acts + [Passed];
      node := raft.onReady(node);
      assert acts[|old(acts)|..] == taken + [Passed];
      failed := false;
    }

    // Any number of passes. In every run, accepted membership changes are
    // separated by a pass of on_ready, and a node that stays leader has its
    // previous promotion committed before it proposes the next one.
    method Start(arrivals: seq<Arrival>) returns (stopped: bool, ghost passes: nat)
      requires Ready()
      requires forall i :: 0 <= i < |arrivals| ==> FromOutside(arrivals[i].requests)
      modifies this`node, this`acts
      ensures Ready()
      ensures Separated(acts) && OneAtATime(acts)
      ensures forall i :: 0 <= i < |acts| ==> SoundPromotion(acts[i])
      ensures old(acts) <= acts && passes <= |arrivals| && (!stopped ==> passes == |arrivals|)
      ensures Ran(raft, electionTick, old(node), arrivals[..passes], node, acts[|old(acts)|..])
      ensures stopped ==> exists p :: Promotable(node, p) && raft.handle(node, Promotion(p)).None?
    {
      passes := 0;
      for i := 0 to |arrivals|
        invariant Ready() && passes == i && old(acts) <= acts
        invariant Ran(raft, electionTick, old(node), arrivals[..i], node, acts[|old(acts)|..])
      {
        ghost var mid, before := node, acts;
        var failed := Pass(arrivals[i]);
        if failed { return true, passes; }
        OneMorePass(raft, electionTick, old(node), arrivals, i, mid, old(acts), before, node, acts);
        passes := i + 1;
      }
      assert arrivals[..|arrivals|] == arrivals;
      stopped := false;
    }
  }

  lemma OneMorePass(raft: Raft, electionTick: nat, n: Node, arrivals: seq<Arrival>, i: nat, mid: Node,
                    start: seq<Act>, before: seq<Act>, m: Node, after: seq<Act>)
    requires i < |arrivals| && start <= before <= after
    requires Ran(raft, electionTick, n, arrivals[..i], mid, before[|start|..])
    requires Passes(raft, electionTick, mid, arrivals[i], m, after[|before|..])
    ensures Ran(raft, electionTick, n, arrivals[..i + 1], m, after[|start|..])
  {
    var more, acts, cut := arrivals[..i + 1], after[|start|..], |before| - |start|;
    assert more[..i] == arrivals[..i] && more[i] == arrivals[i];
    assert acts[..cut] == before[|start|..] && acts[cut..] == after[|before|..];
    assert RanAndPasses(raft, electionTick, n, arrivals[..i], arrivals[i], m, acts);
  }
}
