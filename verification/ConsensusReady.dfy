// The consensus thread's opening and its handling of a Ready, step by step,
// proved to leave exactly the trace of events that ConsensusStore reasons about.
//
// Sources: src/consensus.rs (new, on_ready, process_ready, process_light_ready,
// handle_committed_entries), lib/storage/src/content_manager/consensus_manager.rs
// (new, apply_snapshot, apply_entries, compact_wal), consensus/consensus_wal.rs
module ConsensusReady {
  import opened Common
  import opened ConsensusStore

  // The trace is that of a prefix of the events, which a stop cut after an entry
  // that removed this peer was applied.
  ghost predicate Stopped(before: seq<Event>, events: seq<Event>, after: seq<Event>) {
    exists k :: 0 <= k < |events| && events[k].Applied? && after == before + events[..k + 1]
  }

  lemma StoppedLater(before: seq<Event>, first: seq<Event>, events: seq<Event>, after: seq<Event>)
    requires Stopped(before + first, events, after)
    ensures Stopped(before, first + events, after)
  {
    var k :| 0 <= k < |events| && events[k].Applied? && after == before + first + events[..k + 1];
    var all := first + events;
    assert all[|first| + k] == events[k] && all[..|first| + k + 1] == first + events[..k + 1];
    assert after == before + all[..|first| + k + 1];
  }

  lemma Regroup(a: seq<Event>, b: seq<Event>, c: seq<Event>)
    ensures a + b + c == a + (b + c)
  {
  }

  lemma {:induction false} ApplySplit(s: Store, m: nat, n: nat)
    ensures ApplyEvents(s, m + n) == ApplyEvents(s, m) + ApplyEvents(s.(applied := s.applied + m), n)
    decreases m
  {
    if m > 0 { ApplySplit(s.(applied := s.applied + 1), m - 1, n); }
  }

  lemma ApplyMore(s: Store, n: nat)
    ensures ApplyEvents(s, n + 1) == ApplyEvents(s, n) +
      [Applied(s.applied + n + 1), Wrote(s.(applied := s.applied + n + 1))]
  {
    ApplySplit(s, n, 1);
  }

  lemma ApplyStops(before: seq<Event>, s: Store, n: nat, total: nat, after: seq<Event>)
    requires n < total && after == before + (ApplyEvents(s, n) + [Applied(s.applied + n + 1)])
    ensures Stopped(before, ApplyEvents(s, total), after)
  {
    ApplySplit(s, n, total - n);
    var all, k := ApplyEvents(s, total), |ApplyEvents(s, n)|;
    assert all[k] == Applied(s.applied + n + 1);
    assert all[..k + 1] == ApplyEvents(s, n) + [Applied(s.applied + n + 1)];
  }

  lemma StoppedIsPrefix(before: seq<Event>, s: Store, committed: seq<Entry>, at: nat, after: seq<Event>)
    requires at < |committed| && after == before + StoppedEvents(s, committed, at)
    ensures Stopped(before, CommittedEvents(s, committed), after)
  {
    var q := Queued(s, committed);
    Regroup(before, [Wrote(q)], ApplyEvents(q, at) + [Applied(q.applied + at + 1)]);
    ApplyStops(before + [Wrote(q)], q, at, |committed|, after);
    StoppedLater(before, [Wrote(q)], ApplyEvents(q, |committed|), after);
  }

  // The stop-th queued entry is the first that removes this peer; with None no
  // queued entry does.
  ghost predicate FirstReplayed(s: Store, removesPeer: nat -> bool, stop: Option<nat>) {
    && (stop.Some? ==> s.applied + stop.value < s.toApply && removesPeer(s.applied + stop.value + 1))
    && forall i: nat :: s.applied < i <= (if stop.Some? then s.applied + stop.value else s.toApply) ==> !removesPeer(i)
  }

  // The at-th of these entries is the first that removes this peer; with None no
  // entry does.
  ghost predicate FirstRemoval(committed: seq<Entry>, removesPeer: nat -> bool, at: Option<nat>) {
    && (at.Some? ==> at.value < |committed| && removesPeer(committed[at.value].index))
    && forall i :: 0 <= i < (if at.Some? && at.value < |committed| then at.value else |committed|) ==>
         !removesPeer(committed[i].index)
  }

  class Consensus {
    const minEntries: nat
    var disk: Store
    // Everything observable so far.
    ghost var trace: seq<Event>

    constructor (disk: Store, minEntries: nat)
      ensures this.disk == disk && trace == [] && this.minEntries == minEntries
    {
      this.disk, this.minEntries, trace := disk, minEntries, [];
    }

    method Write(s: Store)
      modifies this
      ensures disk == s && trace == old(trace) + [Wrote(s)]
    {
      disk, trace := s, trace + [Wrote(s)];
    }

    method ApplySnapshot(index: nat)
      modifies this
      ensures disk == Installed(old(disk), Some(index))
      ensures trace == old(trace) + SnapshotEvents(old(disk), Some(index))
    {
      Write(SaveSnapshot(disk, index));
      Write(ClearLog(disk));
    }

    // Each entry may overwrite a conflicting tail of the log before it is added.
    method AppendEntries(entries: seq<Entry>)
      modifies this
      ensures disk == Appended(old(disk), entries)
      ensures trace == old(trace) + AppendEvents(old(disk), entries)
    {
      var i := 0;
      while i < |entries|
        invariant 0 <= i <= |entries|
        invariant Appended(disk, entries[i..]) == Appended(old(disk), entries)
        invariant trace + AppendEvents(disk, entries[i..]) == old(trace) + AppendEvents(old(disk), entries)
      {
        assert entries[i..][0] == entries[i] && entries[i..][1..] == entries[i + 1..];
        ghost var before, start := trace, disk;
        Write(Truncate(disk, entries[i].index));
        Write(Push(disk, entries[i]));
        i := i + 1;
        assert trace == before + [Wrote(Truncate(start, entries[i - 1].index)), Wrote(disk)];
        assert trace + AppendEvents(disk, entries[i..]) == before + AppendEvents(start, entries[i - 1..]);
      }
      assert entries[i..] == [];
    }

    // The queue of committed entries is drained one by one; the progress is
    // saved after each. Removing this peer stops at once, without saving.
    method ApplyEntries(removesPeer: nat -> bool) returns (stop: bool)
      requires disk.applied <= disk.toApply
      modifies this
      ensures disk == old(disk).(applied := disk.applied) && old(disk.applied) <= disk.applied <= old(disk.toApply)
      ensures trace == old(trace) + ApplyEvents(old(disk), disk.applied - old(disk.applied))
        + if stop then [Applied(disk.applied + 1)] else []
      ensures forall i :: old(disk.applied) < i <= disk.applied ==> !removesPeer(i)
      ensures if stop then disk.applied < disk.toApply && removesPeer(disk.applied + 1)
        else disk.applied == disk.toApply
    {
      while disk.applied < disk.toApply
        invariant disk == old(disk).(applied := disk.applied)
        invariant old(disk.applied) <= disk.applied <= disk.toApply
        invariant trace == old(trace) + ApplyEvents(old(disk), disk.applied - old(disk.applied))
        invariant forall i :: old(disk.applied) < i <= disk.applied ==> !removesPeer(i)
        decreases disk.toApply - disk.applied
      {
        var index := disk.applied + 1;
        trace := trace + [Applied(index)];
        if removesPeer(index) { return true; }
        ApplyMore(old(disk), disk.applied - old(disk.applied));
        Write(disk.(applied := index));
      }
      stop := false;
    }

    // A stop comes at the first entry that removes this peer.
    method HandleCommittedEntries(ghost since: nat, committed: seq<Entry>, removesPeer: nat -> bool)
      returns (stop: bool, ghost at: nat)
      requires CommittedOk(disk, since, committed)
      modifies this
      ensures !stop ==> disk == AfterCommitted(old(disk), committed)
      ensures !stop ==> trace == old(trace) + CommittedEvents(old(disk), committed)
      ensures FirstRemoval(committed, removesPeer, if stop then Some(at) else None)
      ensures stop ==> disk == StoppedStore(old(disk), committed, at)
      ensures stop ==> trace == old(trace) + StoppedEvents(old(disk), committed, at)
    {
      stop, at := false, 0;
      if committed != [] {
        stop, at := ApplyCommitted(committed, removesPeer);
      }
    }

    method ApplyCommitted(committed: seq<Entry>, removesPeer: nat -> bool) returns (stop: bool, ghost at: nat)
      requires committed != [] && committed[0].index > 0
      requires forall i :: 0 <= i < |committed| ==> committed[i].index == committed[0].index + i
      modifies this
      ensures !stop ==> disk == AfterCommitted(old(disk), committed)
      ensures !stop ==> trace == old(trace) + CommittedEvents(old(disk), committed)
      ensures FirstRemoval(committed, removesPeer, if stop then Some(at) else None)
      ensures stop ==> disk == StoppedStore(old(disk), committed, at)
      ensures stop ==> trace == old(trace) + StoppedEvents(old(disk), committed, at)
    {
      ghost var q, n := Queued(disk, committed), |committed|;
      Write(disk.(applied := committed[0].index - 1, toApply := committed[|committed| - 1].index));
      assert disk == q && q.toApply - q.applied == n;
      stop := ApplyEntries(removesPeer);
      at := disk.applied - q.applied;
      Regroup(old(trace), [Wrote(q)], ApplyEvents(q, at));
      if stop {
        Regroup(old(trace) + [Wrote(q)], ApplyEvents(q, at), [Applied(q.applied + at + 1)]);
        Regroup(old(trace), [Wrote(q)], ApplyEvents(q, at) + [Applied(q.applied + at + 1)]);
      }
    }

    method Store(r: Ready)
      modifies this
      ensures disk == Persisted(old(disk), r)
      ensures trace == old(trace) + StorageEvents(old(disk), r)
    {
      if r.snapshot.Some? { ApplySnapshot(r.snapshot.value); }
      ghost var xs, ys := SnapshotEvents(old(disk), r.snapshot), AppendEvents(disk, r.entries);
      AppendEntries(r.entries);
      Regroup(old(trace), xs, ys);
      if r.hard.Some? {
        Write(disk.(hard := r.hard.value));
        Regroup(old(trace), xs + ys, [Wrote(disk)]);
      }
    }

    // Messages that may go out at once, the writes, the messages that wait for them.
    method StoreAndSend(r: Ready)
      modifies this
      ensures disk == Persisted(old(disk), r) && trace == old(trace) + HeadEvents(old(disk), r)
    {
      trace := trace + [Sent(r.messages)];
      Store(r);
      trace := trace + [SentPersisted(r.persistedMessages)];
    }

    method ProcessReady(ghost since: nat, r: Ready, removesPeer: nat -> bool) returns (stop: bool, ghost at: nat)
      requires ReadyOk(disk, since, r)
      modifies this
      ensures FirstRemoval(r.committed, removesPeer, if stop then Some(at) else None)
      ensures !stop ==> disk == AfterReady(old(disk), r)
      ensures !stop ==> trace == old(trace) + ReadyEvents(old(disk), r)
      ensures stop ==> disk == StoppedStore(Persisted(old(disk), r), r.committed, at)
      ensures stop ==>
        trace == old(trace) + HeadEvents(old(disk), r) + StoppedEvents(Persisted(old(disk), r), r.committed, at)
      ensures stop ==> Stopped(old(trace), ReadyEvents(old(disk), r), trace)
    {
      StoreAndSend(r);
      ghost var p, before := disk, trace;
      stop, at := HandleCommittedEntries(SinceSnapshot(since, r), r.committed, removesPeer);
      if stop {
        StoppedIsPrefix(before, p, r.committed, at, trace);
        StoppedLater(old(trace), HeadEvents(old(disk), r), CommittedEvents(p, r.committed), trace);
      } else {
        Regroup(old(trace), HeadEvents(old(disk), r), CommittedEvents(p, r.committed));
      }
    }

    method CommitAndSend(l: LightReady)
      modifies this
      ensures disk == Committed(old(disk), l.commit) && trace == old(trace) + LightHeadEvents(old(disk), l)
    {
      if l.commit.Some? { Write(disk.(hard := disk.hard.(commit := l.commit.value))); }
      trace := trace + [Sent(l.messages)];
    }

    method ProcessLightReady(ghost since: nat, l: LightReady, removesPeer: nat -> bool)
      returns (stop: bool, ghost at: Option<nat>)
      requires LightOk(disk, since, l)
      modifies this
      ensures (stop <==> Stops(l, at)) && FirstRemoval(l.committed, removesPeer, at)
      ensures disk == AfterEither(old(disk), l, at) && trace == old(trace) + EitherEvents(old(disk), l, at)
    {
      CommitAndSend(l);
      ghost var k := 0;
      stop, k := HandleCommittedEntries(since, l.committed, removesPeer);
      at := if stop then Some(k) else None;
    }

    method CompactWal()
      requires InOrder(disk)
      modifies this
      ensures disk == Compact(old(disk), minEntries) && InOrder(disk) && trace == old(trace) + [Wrote(disk)]
    {
      CompactInOrder(disk, minEntries);
      Write(Compact(disk, minEntries));
    }

    // Opens a store that the last run left in any safe state. A replayed entry
    // that removes this peer ends the replay; the node starts all the same.
    method Open(older: seq<Entry>, removesPeer: nat -> bool) returns (ghost stop: Option<nat>)
      requires Safe(disk) && OlderOk(disk, older)
      modifies this
      ensures InOrder(disk) && Safe(Reopened(old(disk), older))
      ensures disk == AfterOpen(Reopened(old(disk), older), stop, minEntries)
      ensures trace == old(trace) + OpenEvents(Reopened(old(disk), older), stop, minEntries)
      ensures FirstReplayed(old(disk), removesPeer, stop)
    {
      ReopenedIsSafe(disk, older);
      var start := Reopened(disk, older);
      SafeRecovers(start);
      Write(Recover(start));
      stop := ReplayAndCompact(removesPeer);
      ghost var r := Recover(start);
      ghost var replayed := ApplyEvents(r, Replays(r, stop)) + StopEvents(r, stop);
      Regroup(old(trace), [Wrote(r)], replayed + [Wrote(disk)]);
      Regroup([Wrote(r)], replayed, [Wrote(disk)]);
    }

    method ReplayAndCompact(removesPeer: nat -> bool) returns (ghost stop: Option<nat>)
      requires InOrder(disk)
      modifies this
      ensures InOrder(disk) && disk == Compact(Replayed(old(disk), Replays(old(disk), stop)), minEntries)
      ensures
        var replayed := ApplyEvents(old(disk), Replays(old(disk), stop)) + StopEvents(old(disk), stop);
        trace == old(trace) + (replayed + [Wrote(disk)])
      ensures FirstReplayed(old(disk), removesPeer, stop)
    {
      stop := Replay(removesPeer);
      ReplayInOrder(old(disk), stop);
      ghost var replayed := ApplyEvents(old(disk), Replays(old(disk), stop)) + StopEvents(old(disk), stop);
      CompactWal();
      Regroup(old(trace), replayed, [Wrote(disk)]);
    }

    method Replay(removesPeer: nat -> bool) returns (ghost stop: Option<nat>)
      requires disk.applied <= disk.toApply
      modifies this
      ensures disk == Replayed(old(disk), Replays(old(disk), stop))
      ensures trace == old(trace) + (ApplyEvents(old(disk), Replays(old(disk), stop)) + StopEvents(old(disk), stop))
      ensures FirstReplayed(old(disk), removesPeer, stop)
    {
      var stopped := ApplyEntries(removesPeer);
      stop := if stopped then Some(disk.applied - old(disk.applied)) else None;
    }

    // What follows a Ready in a pass.
    method FinishPass(ghost since: nat, l: LightReady, removesPeer: nat -> bool)
      returns (stop: bool, ghost at: Option<nat>)
      requires InOrder(disk) && disk.snapshot <= since && LightOk(disk, since, l)
      modifies this
      ensures (stop <==> Stops(l, at)) && FirstRemoval(l.committed, removesPeer, at)
      ensures InOrder(disk) && disk == Compact(AfterEither(old(disk), l, at), minEntries)
      ensures trace == old(trace) + FinishEvents(old(disk), l, at, minEntries)
    {
      stop, at := ProcessLightReady(since, l, removesPeer);
      EitherSafe(old(disk), since, l, at);
      ghost var middle := trace;
      CompactWal();
      assert middle == old(trace) + EitherEvents(old(disk), l, at);
    }

    // One pass of the loop. A stop in the Ready leaves out everything that would
    // have followed, one in the LightReady all but the compaction.
    method OnReady(ghost since: nat, r: Ready, l: LightReady, removesPeer: nat -> bool)
      returns (stop: bool, ghost early: bool, ghost at: Option<nat>)
      requires InOrder(disk) && disk.snapshot <= since
      requires ReadyOk(disk, since, r) && LightOk(AfterReady(disk, r), SinceReady(since, r), l)
      modifies this
      ensures stop <==> early || Stops(l, at)
      ensures (early ==> at.Some?) && FirstRemoval(r.committed, removesPeer, if early then at else None)
      ensures !early ==> FirstRemoval(l.committed, removesPeer, at)
      ensures early ==> disk == StoppedStore(Persisted(old(disk), r), r.committed, at.value)
      ensures early ==>
        trace == old(trace) + HeadEvents(old(disk), r) + StoppedEvents(Persisted(old(disk), r), r.committed, at.value)
      ensures early ==> Stopped(old(trace), ReadyEvents(old(disk), r), trace)
      ensures !early ==> InOrder(disk) && trace == old(trace) + PassEvents(old(disk), r, l, at, minEntries)
      ensures !early ==> disk == Compact(AfterEither(AfterReady(old(disk), r), l, at), minEntries)
    {
      ReadySafe(disk, since, r);
      ghost var k := 0;
      stop, k := ProcessReady(since, r, removesPeer);
      early, at := stop, if stop then Some(k) else None;
      if !stop {
        stop, at := FinishPass(SinceReady(since, r), l, removesPeer);
        Regroup(old(trace), ReadyEvents(old(disk), r), FinishEvents(AfterReady(old(disk), r), l, at, minEntries));
      }
    }
  }
}
