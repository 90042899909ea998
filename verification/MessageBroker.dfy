// Broker that forwards Raft messages to one sender task a peer, restarting
// tasks that have died.
//
// Source: src/consensus.rs
module MessageBroker {
  import opened Common
  import opened MessageSender

  type PeerId = nat

  datatype RaftMessage = RaftMessage(to: PeerId, message: Message)

  // A handle as the broker sees it: whether its task still runs, and how many
  // ordinary messages its queue has room for.
  datatype Sender = Sender(open: bool, room: nat)

  type Senders = map<PeerId, Sender>

  // What became of a peer's task since the last attempt: it may have died, and its
  // queue has drained or filled.
  datatype Drift = Drift(dies: bool, room: nat)

  type Drifts = PeerId -> Drift

  datatype Outcome = Sent | Full | Closed

  function TrySend(s: Sender, m: Message): (Sender, Outcome) {
    if !s.open then (s, Closed)
    else if m.heartbeat then (s, Sent)
    else if s.room == 0 then (s, Full)
    else (s.(room := s.room - 1), Sent)
  }

  datatype Fate = Forwarded | DroppedFull

  // The messages of a batch that were forwarded to one peer, in batch order.
  function ForwardedTo(messages: seq<RaftMessage>, fates: seq<Fate>, p: PeerId): seq<Message>
    requires |fates| <= |messages|
  {
    if fates == [] then [] else
    var n := |fates| - 1;
    ForwardedTo(messages, fates[..n], p) +
      if messages[n].to == p && fates[n].Forwarded? then [messages[n].message] else []
  }

  // ---------------------------------------------------------------------
  // What one message meets

  ghost function Drifted(s: Senders, d: Drifts): Senders {
    map p | p in s :: Sender(s[p].open && !d(p).dies, d(p).room)
  }

  // The sender of its peer died before the message was tried.
  ghost predicate FindsDead(s: Senders, m: RaftMessage, d: Drifts) {
    m.to in s && !(s[m.to].open && !d(m.to).dies)
  }

  // The sender runs, and an ordinary message finds its queue without room.
  ghost predicate FindsFull(s: Senders, m: RaftMessage, d: Drifts) {
    m.to in s && s[m.to].open && !d(m.to).dies && !m.message.heartbeat && d(m.to).room == 0
  }

  // A task just spawned, after its first message.
  ghost function Spawned(m: RaftMessage): Sender {
    Sender(true, if m.message.heartbeat then 128 else 127)
  }

  // The senders after a message. Without a task one is spawned; one that died is
  // replaced at a second attempt.
  ghost function Served(s: Senders, m: RaftMessage, first: Drifts, second: Drifts): Senders {
    var now := Drifted(s, first);
    if m.to !in s then now[m.to := Spawned(m)]
    else if FindsDead(s, m, first) then Drifted(now - {m.to}, second)[m.to := Spawned(m)]
    else if m.message.heartbeat || now[m.to].room == 0 then now
    else now[m.to := Sender(true, now[m.to].room - 1)]
  }

  // A batch from attempt number a on: message by message the senders are served,
  // and a message is dropped exactly if it finds a running task without room.
  ghost predicate Serves(s: Senders, messages: seq<RaftMessage>, drifts: nat -> Drifts, a: nat, fates: seq<Fate>,
                          t: Senders, b: nat)
    requires |fates| <= |messages|
    decreases |fates|
  {
    if fates == [] then t == s && b == a else
    var n := |fates| - 1;
    exists mid, c: nat ::
      && Serves(s, messages, drifts, a, fates[..n], mid, c)
      && (fates[n].DroppedFull? <==> FindsFull(mid, messages[n], drifts(c)))
      && t == Served(mid, messages[n], drifts(c), drifts(c + 1))
      && b == c + if FindsDead(mid, messages[n], drifts(c)) then 2 else 1
  }

  ghost function LogOf(log: map<PeerId, seq<Message>>, p: PeerId): seq<Message> {
    if p in log then log[p] else []
  }

  // The log gained exactly the forwarded messages of the batch.
  ghost predicate Gained(before: map<PeerId, seq<Message>>, after: map<PeerId, seq<Message>>,
                         messages: seq<RaftMessage>, fates: seq<Fate>)
    requires |fates| <= |messages|
  {
    forall p :: LogOf(after, p) == LogOf(before, p) + ForwardedTo(messages, fates, p)
  }

  lemma GainOne(before: map<PeerId, seq<Message>>, middle: map<PeerId, seq<Message>>, after: map<PeerId, seq<Message>>,
                messages: seq<RaftMessage>, fates: seq<Fate>, fate: Fate)
    requires |fates| < |messages| && Gained(before, middle, messages, fates)
    requires Logged(middle, after, messages[|fates|], fate.Forwarded?)
    ensures Gained(before, after, messages, fates + [fate])
  {
    ForwardedSnoc(messages, fates, fate);
  }

  lemma GainNone(before: map<PeerId, seq<Message>>, middle: map<PeerId, seq<Message>>, after: map<PeerId, seq<Message>>,
                 messages: seq<RaftMessage>, fates: seq<Fate>, m: RaftMessage)
    requires |fates| <= |messages| && Gained(before, middle, messages, fates) && Logged(middle, after, m, false)
    ensures Gained(before, after, messages, fates)
  {
  }

  // The log gained this message, or nothing.
  ghost predicate Logged(before: map<PeerId, seq<Message>>, after: map<PeerId, seq<Message>>, m: RaftMessage,
                         sent: bool) {
    forall p :: LogOf(after, p) == LogOf(before, p) + if p == m.to && sent then [m.message] else []
  }

  class RaftMessageBroker {
    var senders: Senders
    // Everything handed to a peer, over all its sender tasks.
    ghost var log: map<PeerId, seq<Message>>

    // Tasks run on their own.
    method LetRun(d: Drifts)
      modifies `senders
      ensures senders == Drifted(old(senders), d)
    {
      senders := map p | p in senders :: Sender(senders[p].open && !d(p).dies, d(p).room);
    }

    // One attempt: finds or spawns the sender of the message's peer and tries.
    // A spawned task is running when its first message is posted.
    method Attempt(m: RaftMessage, d: Drifts) returns (outcome: Outcome)
      modifies this
      ensures outcome.Closed? <==> FindsDead(old(senders), m, d)
      ensures outcome.Full? <==> FindsFull(old(senders), m, d)
      ensures outcome.Closed? ==> senders == Drifted(old(senders), d) - {m.to}
      ensures !outcome.Closed? ==> senders == Served(old(senders), m, d, d)
      ensures Logged(old(log), log, m, outcome.Sent?)
    {
      LetRun(d);
      if m.to !in senders {
        senders := senders[m.to := Sender(true, QUEUE_CAPACITY)];
      }
      var (sender, result) := TrySend(senders[m.to], m.message);
      outcome := result;
      senders := senders[m.to := sender];
      match outcome
      case Sent => log := log[m.to := LogOf(log, m.to) + [m.message]];
      case Full =>
      case Closed => senders := senders - {m.to};
    }

    // Every message of the batch is forwarded once to its own peer, or dropped,
    // exactly if its task runs and has no room; a task that died is replaced and
    // the message tried again. drifts(i) is what happened before attempt i.
    method Send(messages: seq<RaftMessage>, drifts: nat -> Drifts) returns (attempts: nat, ghost fates: seq<Fate>)
      modifies this
      ensures |fates| == |messages|
      ensures Serves(old(senders), messages, drifts, 0, fates, senders, attempts)
      ensures Gained(old(log), log, messages, fates)
    {
      attempts, fates := 0, [];
      var next := 0;
      var retry: Option<RaftMessage> := None;
      ghost var mid, c := senders, 0;
      while retry.Some? || next < |messages|
        invariant next <= |messages| && |fates| == if retry.Some? then next - 1 else next
        invariant Serves(old(senders), messages, drifts, 0, fates, mid, c)
        invariant retry.None? ==> senders == mid && attempts == c
        invariant retry.Some? ==>
          && next > 0 && retry.value == messages[next - 1] && attempts == c + 1
          && FindsDead(mid, retry.value, drifts(c)) && senders == Drifted(mid, drifts(c)) - {retry.value.to}
        invariant Gained(old(log), log, messages, fates)
        decreases |messages| - next, retry.Some?
      {
        var m;
        if retry.Some? {
          m := retry.value;
          retry := None;
        } else {
          m := messages[next];
          next := next + 1;
        }
        ghost var before := log;
        var outcome := Attempt(m, drifts(attempts));
        attempts := attempts + 1;
        if outcome.Closed? {
          GainNone(old(log), before, log, messages, fates, m);
          retry := Some(m);
        } else {
          ghost var fate := if outcome.Sent? then Forwarded else DroppedFull;
          GainOne(old(log), before, log, messages, fates, fate);
          ServesOne(old(senders), messages, drifts, fates, mid, c, fate, senders, attempts);
          fates, mid, c := fates + [fate], senders, attempts;
        }
      }
    }
  }

  lemma ServesOne(s: Senders, messages: seq<RaftMessage>, drifts: nat -> Drifts, fates: seq<Fate>, mid: Senders,
                   c: nat, fate: Fate, t: Senders, b: nat)
    requires |fates| < |messages| && Serves(s, messages, drifts, 0, fates, mid, c)
    requires fate.DroppedFull? <==> FindsFull(mid, messages[|fates|], drifts(c))
    requires t == Served(mid, messages[|fates|], drifts(c), drifts(c + 1))
    requires b == c + if FindsDead(mid, messages[|fates|], drifts(c)) then 2 else 1
    ensures Serves(s, messages, drifts, 0, fates + [fate], t, b)
  {
    var longer := fates + [fate];
    assert longer[..|fates|] == fates;
  }

  lemma ForwardedSnoc(messages: seq<RaftMessage>, fates: seq<Fate>, fate: Fate)
    requires |fates| < |messages|
    ensures forall p ::
      ForwardedTo(messages, fates + [fate], p) ==
        ForwardedTo(messages, fates, p) +
        if messages[|fates|].to == p && fate.Forwarded? then [messages[|fates|].message] else []
  {
    assert (fates + [fate])[..|fates|] == fates;
  }

  predicate GoesTo(messages: seq<RaftMessage>, fates: seq<Fate>, n: nat, p: PeerId)
    requires n < |fates| <= |messages|
  {
    messages[n].to == p && fates[n].Forwarded?
  }

  // Growing positions of exactly the messages forwarded to a peer, which are these.
  ghost predicate Locates(messages: seq<RaftMessage>, fates: seq<Fate>, p: PeerId, positions: seq<nat>,
                          out: seq<Message>)
    requires |fates| <= |messages|
  {
    && |positions| == |out|
    && (forall i :: 0 <= i < |positions| ==> positions[i] < |fates| && GoesTo(messages, fates, positions[i], p))
    && (forall i :: 0 <= i < |positions| ==> positions[i] < |messages| && messages[positions[i]].message == out[i])
    && (forall i, j :: 0 <= i < j < |positions| ==> positions[i] < positions[j])
    && forall n :: 0 <= n < |fates| && GoesTo(messages, fates, n, p) ==> n in positions
  }

  lemma SameGoes(messages: seq<RaftMessage>, fates: seq<Fate>, fate: Fate, p: PeerId)
    requires |fates| < |messages|
    ensures forall n :: 0 <= n < |fates| ==> (GoesTo(messages, fates + [fate], n, p) <==> GoesTo(messages, fates, n, p))
  {
  }

  lemma LocatesThis(messages: seq<RaftMessage>, fates: seq<Fate>, fate: Fate, p: PeerId, positions: seq<nat>,
                    out: seq<Message>)
    requires |fates| < |messages| && Locates(messages, fates, p, positions, out)
    requires messages[|fates|].to == p && fate.Forwarded?
    ensures Locates(messages, fates + [fate], p, positions + [|fates|], out + [messages[|fates|].message])
  {
    SameGoes(messages, fates, fate, p);
    var n, longer := |fates|, positions + [|fates|];
    assert forall x :: x in longer <==> x in positions || x == n;
  }

  lemma LocatesNot(messages: seq<RaftMessage>, fates: seq<Fate>, fate: Fate, p: PeerId, positions: seq<nat>,
                   out: seq<Message>)
    requires |fates| < |messages| && Locates(messages, fates, p, positions, out)
    requires messages[|fates|].to != p || !fate.Forwarded?
    ensures Locates(messages, fates + [fate], p, positions, out)
  {
    SameGoes(messages, fates, fate, p);
  }

  // Forwarded messages of a peer are a subsequence of the batch: the i-th one
  // comes from a position that grows with i.
  lemma {:induction false} ForwardedKeepsOrder(messages: seq<RaftMessage>, fates: seq<Fate>, p: PeerId)
      returns (positions: seq<nat>)
    requires |fates| <= |messages|
    ensures Locates(messages, fates, p, positions, ForwardedTo(messages, fates, p))
    decreases |fates|
  {
    if fates == [] {
      positions := [];
    } else {
      var n := |fates| - 1;
      var rest, out := fates[..n], ForwardedTo(messages, fates[..n], p);
      positions := ForwardedKeepsOrder(messages, rest, p);
      assert fates == rest + [fates[n]];
      if GoesTo(messages, fates, n, p) {
        LocatesThis(messages, rest, fates[n], p, positions, out);
        positions := positions + [n];
      } else {
        LocatesNot(messages, rest, fates[n], p, positions, out);
      }
    }
  }
}
