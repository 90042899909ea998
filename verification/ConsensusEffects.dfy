// What opening a node, a Ready and a LightReady leave on disk and send out, said
// without the functions that produce the events.
//
// Sources: src/consensus.rs (process_ready, process_light_ready),
// lib/storage/src/content_manager/consensus_manager.rs, consensus/consensus_wal.rs
module ConsensusEffects {
  import opened Common
  import opened ConsensusStore

  // ---------------------------------------------------------------------
  // Messages

  // Everything that the events send, in order.
  function Outbox(events: seq<Event>): Messages
    decreases |events|
  {
    if events == [] then [] else Said(events[0]) + Outbox(events[1..])
  }

  function Said(e: Event): Messages {
    match e
    case Sent(messages) => messages
    case SentPersisted(messages) => messages
    case Wrote(_) => []
    case Applied(_) => []
  }

  lemma {:induction false} OutboxConcat(xs: seq<Event>, ys: seq<Event>)
    ensures Outbox(xs + ys) == Outbox(xs) + Outbox(ys)
    decreases |xs|
  {
    if xs == [] {
      assert xs + ys == ys;
    } else {
      OutboxConcat(xs[1..], ys);
      assert (xs + ys)[1..] == xs[1..] + ys && (xs + ys)[0] == xs[0];
      Associate(Said(xs[0]), Outbox(xs[1..]), Outbox(ys));
    }
  }

  lemma Associate(a: Messages, b: Messages, c: Messages)
    ensures a + (b + c) == a + b + c
  {
  }

  // Writes and applications only.
  ghost predicate Quiet(events: seq<Event>) {
    forall i :: 0 <= i < |events| ==> events[i].Wrote? || events[i].Applied?
  }

  lemma {:induction false} QuietSendsNothing(events: seq<Event>)
    requires Quiet(events)
    ensures Outbox(events) == []
    decreases |events|
  {
    if events != [] { QuietSendsNothing(events[1..]); }
  }

  lemma QuietAfter(xs: seq<Event>, ys: seq<Event>)
    requires Quiet(ys)
    ensures Outbox(xs + ys) == Outbox(xs)
  {
    OutboxConcat(xs, ys);
    QuietSendsNothing(ys);
  }

  lemma {:induction false} AppendIsQuiet(s: Store, entries: seq<Entry>)
    ensures Quiet(AppendEvents(s, entries))
    decreases |entries|
  {
    if entries != [] { AppendIsQuiet(Push(Truncate(s, entries[0].index), entries[0]), entries[1..]); }
  }

  lemma {:induction false} ApplyIsQuiet(s: Store, n: nat)
    ensures Quiet(ApplyEvents(s, n))
    decreases n
  {
    if n > 0 { ApplyIsQuiet(s.(applied := s.applied + 1), n - 1); }
  }

  lemma CommittedIsQuiet(s: Store, committed: seq<Entry>, at: nat)
    ensures Quiet(CommittedEvents(s, committed))
    ensures at < |committed| ==> Quiet(StoppedEvents(s, committed, at))
  {
    if committed != [] {
      ApplyIsQuiet(Queued(s, committed), |committed|);
      ApplyIsQuiet(Queued(s, committed), at);
    }
  }

  lemma StorageIsQuiet(s: Store, r: Ready)
    ensures Quiet(StorageEvents(s, r))
  {
    AppendIsQuiet(Installed(s, r.snapshot), r.entries);
  }

  lemma HeadSends(s: Store, r: Ready)
    ensures Outbox(HeadEvents(s, r)) == r.messages + r.persistedMessages
  {
    var first, storage, last := [Sent(r.messages)], StorageEvents(s, r), [SentPersisted(r.persistedMessages)];
    StorageIsQuiet(s, r);
    QuietAfter(first, storage);
    OutboxConcat(first + storage, last);
    assert Outbox(first) == r.messages by { assert first[1..] == []; }
    assert Outbox(last) == r.persistedMessages by { assert last[1..] == []; }
  }

  // A Ready, stopped or not, sends its messages and then its persisted messages,
  // nothing else.
  lemma ReadySends(s: Store, r: Ready, at: nat)
    ensures Outbox(ReadyEvents(s, r)) == r.messages + r.persistedMessages
    ensures at < |r.committed| ==>
      Outbox(HeadEvents(s, r) + StoppedEvents(Persisted(s, r), r.committed, at)) == r.messages + r.persistedMessages
  {
    var p := Persisted(s, r);
    HeadSends(s, r);
    CommittedIsQuiet(p, r.committed, at);
    QuietAfter(HeadEvents(s, r), CommittedEvents(p, r.committed));
    if at < |r.committed| { QuietAfter(HeadEvents(s, r), StoppedEvents(p, r.committed, at)); }
  }

  // The first event sends the messages, and exactly one later event sends the
  // persisted ones.
  lemma PersistedOnce(s: Store, r: Ready) returns (j: nat)
    ensures 0 < j < |ReadyEvents(s, r)| && ReadyEvents(s, r)[0] == Sent(r.messages)
    ensures ReadyEvents(s, r)[j] == SentPersisted(r.persistedMessages)
    ensures forall i :: 0 <= i < |ReadyEvents(s, r)| && ReadyEvents(s, r)[i].SentPersisted? ==> i == j
    ensures forall i :: 0 < i < |ReadyEvents(s, r)| ==> !ReadyEvents(s, r)[i].Sent?
  {
    StorageIsQuiet(s, r);
    CommittedIsQuiet(Persisted(s, r), r.committed, 0);
    var head, tail := [Sent(r.messages)] + StorageEvents(s, r), CommittedEvents(Persisted(s, r), r.committed);
    j := |head|;
    assert ReadyEvents(s, r) == head + [SentPersisted(r.persistedMessages)] + tail;
  }

  lemma LightHeadSends(s: Store, l: LightReady)
    ensures Outbox(LightHeadEvents(s, l)) == l.messages
  {
    var writes := if l.commit.Some? then [Wrote(Committed(s, l.commit))] else [];
    assert Quiet(writes);
    QuietSendsNothing(writes);
    OutboxConcat(writes, [Sent(l.messages)]);
    assert [Sent(l.messages)][1..] == [];
  }

  // A LightReady, stopped or not, sends its messages.
  lemma LightSends(s: Store, l: LightReady, stop: Option<nat>)
    ensures Outbox(LightEvents(s, l)) == l.messages && Outbox(EitherEvents(s, l, stop)) == l.messages
  {
    var c, at := Committed(s, l.commit), if Stops(l, stop) then stop.value else 0;
    LightHeadSends(s, l);
    CommittedIsQuiet(c, l.committed, at);
    QuietAfter(LightHeadEvents(s, l), CommittedEvents(c, l.committed));
    if Stops(l, stop) { QuietAfter(LightHeadEvents(s, l), StoppedEvents(c, l.committed, at)); }
  }

  // A pass sends all messages of both, in order; opening sends nothing.
  lemma PassSends(s: Store, r: Ready, l: LightReady, stop: Option<nat>, minEntries: nat)
    ensures Outbox(PassEvents(s, r, l, stop, minEntries)) == r.messages + r.persistedMessages + l.messages
  {
    var t := AfterReady(s, r);
    var compacted := [Wrote(Compact(AfterEither(t, l, stop), minEntries))];
    ReadySends(s, r, 0);
    LightSends(t, l, stop);
    assert Quiet(compacted);
    QuietSendsNothing(compacted);
    OutboxConcat(EitherEvents(t, l, stop), compacted);
    OutboxConcat(ReadyEvents(s, r), FinishEvents(t, l, stop, minEntries));
  }

  lemma OpenSendsNothing(s: Store, stop: Option<nat>, minEntries: nat)
    requires s.applied <= s.toApply
    ensures Outbox(OpenEvents(s, stop, minEntries)) == []
  {
    var r := Recover(s);
    ApplyIsQuiet(r, Replays(r, stop));
    QuietSendsNothing(OpenEvents(s, stop, minEntries));
  }

  // ---------------------------------------------------------------------
  // What is on disk

  lemma AppendOneExactly(s: Store, first: Entry, e: Entry)
    requires InOrder(s) && s.hard.commit < first.index <= LastIndex(s) + 1
    ensures Holds(Push(Truncate(s, first.index), first), e) <==> e == first || (Holds(s, e) && e.index < first.index)
  {
  }

  // After an append the log holds the new entries and, of the old ones, those
  // before the first new one.
  lemma {:induction false} AppendExactly(s: Store, entries: seq<Entry>, e: Entry)
    requires InOrder(s) && EntriesOk(s, entries)
    ensures Holds(Appended(s, entries), e) <==>
      e in entries || (Holds(s, e) && (entries == [] || e.index < entries[0].index))
    decreases |entries|
  {
    if entries != [] {
      var first, rest := entries[0], entries[1..];
      var t := Push(Truncate(s, first.index), first);
      assert entries == [first] + rest;
      AppendOne(s, first);
      RestOk(s, entries);
      AppendOneExactly(s, first, e);
      AppendExactly(t, rest, e);
      assert e in rest ==> first.index < e.index by {
        if e in rest { var i :| 0 <= i < |rest| && rest[i] == e; assert entries[i + 1] == e; }
      }
    }
  }

  // The log after a Ready: its entries, and unless a snapshot came the old ones
  // before the first of them.
  lemma ReadyLog(s: Store, since: nat, r: Ready, e: Entry)
    requires InOrder(s) && s.snapshot <= since && ReadyOk(s, since, r)
    ensures Holds(End(s, ReadyEvents(s, r)), e) <==>
      || e in r.entries
      || (r.snapshot.None? && Holds(s, e) && (r.entries == [] || e.index < r.entries[0].index))
  {
    assert End(s, ReadyEvents(s, r)) == AfterReady(s, r) by { ReadySafe(s, since, r); }
    PersistedLog(s, r, e);
  }

  lemma PersistedLog(s: Store, r: Ready, e: Entry)
    requires InOrder(s) && (r.snapshot.Some? ==> r.snapshot.value >= s.hard.commit)
    requires EntriesOk(Installed(s, r.snapshot), r.entries)
    ensures Holds(AfterReady(s, r), e) <==>
      || e in r.entries
      || (r.snapshot.None? && Holds(s, e) && (r.entries == [] || e.index < r.entries[0].index))
  {
    SnapshotGood(s, r.snapshot);
    AppendExactly(Installed(s, r.snapshot), r.entries, e);
  }

  // The rest of the disk after a Ready.
  lemma ReadyLeaves(s: Store, since: nat, r: Ready)
    requires InOrder(s) && s.snapshot <= since && ReadyOk(s, since, r)
    ensures
      var t := End(s, ReadyEvents(s, r));
      && t.snapshot == (if r.snapshot.Some? then r.snapshot.value else s.snapshot)
      && t.hard == (if r.hard.Some? then r.hard.value
                    else if r.snapshot.Some? then s.hard.(commit := r.snapshot.value) else s.hard)
      && t.applied == (if r.committed != [] then r.committed[|r.committed| - 1].index
                       else if r.snapshot.Some? then r.snapshot.value else s.applied)
      && t.toApply == (if r.committed == [] && r.snapshot.None? then s.toApply else t.applied)
  {
    assert End(s, ReadyEvents(s, r)) == AfterReady(s, r) by { ReadySafe(s, since, r); }
    SnapshotGood(s, r.snapshot);
    AppendInOrder(Installed(s, r.snapshot), r.entries);
  }

  // The whole disk after a LightReady: only the commit index and the queue change.
  lemma LightLeaves(s: Store, since: nat, l: LightReady)
    requires InOrder(s) && s.snapshot <= since && LightOk(s, since, l)
    ensures
      var t := End(s, LightEvents(s, l));
      && t == s.(hard := t.hard, applied := t.applied, toApply := t.toApply)
      && t.hard == s.hard.(commit := if l.commit.Some? then l.commit.value else s.hard.commit)
      && (l.committed != [] ==> t.applied == t.toApply == l.committed[|l.committed| - 1].index)
      && (l.committed == [] ==> t.applied == s.applied && t.toApply == s.toApply)
  {
    LightSafe(s, since, l);
  }

  // After a stop the queue stands before the entry that removed the peer.
  lemma StoppedLeaves(s: Store, since: nat, l: LightReady, at: nat)
    requires InOrder(s) && s.snapshot <= since && LightOk(s, since, l) && at < |l.committed|
    ensures
      var t := End(s, EitherEvents(s, l, Some(at)));
      && t == s.(hard := t.hard, applied := t.applied, toApply := t.toApply)
      && t.hard == s.hard.(commit := if l.commit.Some? then l.commit.value else s.hard.commit)
      && t.applied + 1 == l.committed[at].index && t.toApply == l.committed[|l.committed| - 1].index
  {
    EitherSafe(s, since, l, Some(at));
  }

  // Compaction forgets the entries below the last applied one, all of them or
  // none, and touches nothing else.
  lemma CompactExactly(s: Store, minEntries: nat, e: Entry)
    requires InOrder(s)
    ensures
      var t := Compact(s, minEntries);
      && t == s.(wal := t.wal, walBase := t.walBase)
      && (Holds(t, e) <==> Holds(s, e) && (s.applied <= e.index || t == s))
      && (t == s <==> minEntries == 0 || s.wal == [] || s.applied < s.walBase + 1 + minEntries)
  {
    CompactKeeps(s, minEntries, e);
  }

  // The whole disk after an opening: the queue advances, and the log loses what a
  // snapshot outran or what was compacted.
  lemma OpenLeaves(s: Store, stop: Option<nat>, minEntries: nat)
    requires Safe(s)
    ensures
      var t := End(s, OpenEvents(s, stop, minEntries));
      && t == s.(wal := t.wal, walBase := t.walBase, applied := t.applied)
      && t.applied == if stop.Some? && stop.value < s.toApply - s.applied then s.applied + stop.value else s.toApply
  {
    assert End(s, OpenEvents(s, stop, minEntries)) == AfterOpen(s, stop, minEntries) by {
      OpenSafe(s, stop, minEntries);
    }
  }

  lemma OpenLog(s: Store, stop: Option<nat>, minEntries: nat, e: Entry)
    requires Safe(s)
    ensures
      var t := End(s, OpenEvents(s, stop, minEntries));
      && (Holds(t, e) ==> Holds(s, e) && s.snapshot <= LastIndex(s))
      && (Holds(s, e) && s.snapshot <= LastIndex(s) && t.applied <= e.index ==> Holds(t, e))
  {
    OpenSafe(s, stop, minEntries);
    OpenedLog(s, stop, minEntries, e);
  }

  lemma OpenedLog(s: Store, stop: Option<nat>, minEntries: nat, e: Entry)
    requires Safe(s)
    ensures
      var t := AfterOpen(s, stop, minEntries);
      && (Holds(t, e) ==> Holds(s, e) && s.snapshot <= LastIndex(s))
      && (Holds(s, e) && s.snapshot <= LastIndex(s) && t.applied <= e.index ==> Holds(t, e))
  {
    var r := Recover(s);
    SafeRecovers(s);
    RecoveredLog(s, e);
    ReplayedLog(r, Replays(r, stop), minEntries, e);
  }

  lemma ReplayedLog(r: Store, n: nat, minEntries: nat, e: Entry)
    requires InOrder(r) && r.applied + n <= r.toApply
    ensures
      var t := Compact(Replayed(r, n), minEntries);
      (Holds(t, e) ==> Holds(r, e)) && (Holds(r, e) && t.applied <= e.index ==> Holds(t, e))
  {
    var p := Replayed(r, n);
    assert InOrder(p);
    CompactExactly(p, minEntries, e);
  }

  lemma RecoveredLog(s: Store, e: Entry)
    requires Safe(s)
    ensures Holds(Recover(s), e) <==> Holds(s, e) && s.snapshot <= LastIndex(s)
  {
  }

  // What the node has been handed after a pass: everything up to the last committed
  // entry of the LightReady or of the Ready, or up to the snapshot.
  lemma SinceExactly(node: Node, r: Ready, l: LightReady, stop: Option<nat>, cut: Option<nat>, minEntries: nat)
    requires node.disk.applied <= node.disk.toApply
    ensures After(node, Pass(r, l, stop, cut), minEntries).since ==
      if l.committed != [] then l.committed[|l.committed| - 1].index
      else if r.committed != [] then r.committed[|r.committed| - 1].index
      else if r.snapshot.Some? then r.snapshot.value else node.since
  {
  }

  // After an opening it is what was applied before the replay.
  lemma SinceOpened(node: Node, older: seq<Entry>, stop: Option<nat>, cut: Option<nat>, minEntries: nat)
    requires node.disk.applied <= node.disk.toApply
    ensures After(node, Open(older, stop, cut), minEntries).since == node.disk.applied
  {
  }
}
