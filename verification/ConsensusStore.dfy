// Order of persistence, application and sending while a node is opened and while
// Raft Readys are processed, with a crash possible between any two store writes.
//
// The raft crate is represented by the contract of the Ready and LightReady it
// hands out.
//
// Sources: src/consensus.rs (new, on_ready, process_ready, process_light_ready,
// handle_committed_entries), lib/storage/src/content_manager/consensus_manager.rs
// (new, apply_entries, apply_snapshot, compact_wal), consensus/entry_queue.rs,
// consensus/consensus_wal.rs
module ConsensusStore {
  import opened Common

  datatype Entry = Entry(index: nat, term: nat, data: nat)

  datatype HardState = HardState(term: nat, vote: nat, commit: nat)

  type Messages = seq<nat>

  // What is on disk: the index of the last installed snapshot, the log (whose
  // first entry follows walBase), the hard state, and the queue of committed
  // entries: applied so far, and to be applied.
  datatype Store = Store(snapshot: nat, walBase: nat, wal: seq<Entry>, hard: HardState, applied: nat, toApply: nat)

  // The last index the store reports: an empty log ends with the snapshot.
  function LastIndex(s: Store): nat {
    if s.wal == [] then s.snapshot else s.walBase + |s.wal|
  }

  ghost predicate Numbered(s: Store) {
    forall i :: 0 <= i < |s.wal| ==> s.wal[i].index == s.walBase + 1 + i
  }

  // The log still holds every entry that is not applied, and follows the
  // snapshot or still holds a committed entry.
  ghost predicate LogOk(s: Store) {
    && Numbered(s)
    && (s.wal != [] ==> s.walBase <= s.applied && (s.walBase == s.snapshot || s.walBase < s.hard.commit))
  }

  // The stored indices are in order.
  ghost predicate InOrder(s: Store) {
    LogOk(s) && s.snapshot <= s.applied <= s.toApply <= s.hard.commit <= LastIndex(s)
  }

  // The log has an entry with this index.
  ghost predicate InLog(s: Store, index: nat) {
    s.walBase < index <= s.walBase + |s.wal|
  }

  // The log holds exactly this entry at its index.
  ghost predicate Holds(s: Store, e: Entry) {
    InLog(s, e.index) && s.wal[e.index - s.walBase - 1] == e
  }

  datatype Ready = Ready(
    messages: Messages,
    snapshot: Option<nat>,
    entries: seq<Entry>,
    hard: Option<HardState>,
    persistedMessages: Messages,
    committed: seq<Entry>)

  datatype LightReady = LightReady(commit: Option<nat>, messages: Messages, committed: seq<Entry>)

  // Everything the outside or a restart can observe, in order.
  datatype Event =
    | Wrote(store: Store)
    | Sent(messages: Messages)
    | SentPersisted(messages: Messages)
    | Applied(index: nat)

  // ---------------------------------------------------------------------
  // Store writes

  // A snapshot first saves the state it carries, then clears the log.
  function SaveSnapshot(s: Store, index: nat): Store {
    s.(snapshot := index, hard := s.hard.(commit := index), applied := index, toApply := index)
  }

  function ClearLog(s: Store): Store {
    s.(wal := [], walBase := s.snapshot)
  }

  function Installed(s: Store, snapshot: Option<nat>): Store {
    if snapshot.Some? then ClearLog(SaveSnapshot(s, snapshot.value)) else s
  }

  // Cuts the log before an entry that is about to be overwritten.
  function Truncate(s: Store, index: nat): Store {
    if s.wal != [] && s.walBase < index <= LastIndex(s) then s.(wal := s.wal[..index - s.walBase - 1]) else s
  }

  function Push(s: Store, e: Entry): Store {
    if s.wal == [] then s.(wal := [e], walBase := if e.index == 0 then 0 else e.index - 1) else s.(wal := s.wal + [e])
  }

  // Forgets the entries below the last applied one, if there are enough of them;
  // zero switches compaction off.
  function Compact(s: Store, minEntries: nat): Store {
    if minEntries > 0 && s.wal != [] && s.walBase + 1 + minEntries <= s.applied <= LastIndex(s)
    then s.(wal := s.wal[s.applied - 1 - s.walBase..], walBase := s.applied - 1) else s
  }

  // Opening the store clears a log that a snapshot has outrun.
  function Recover(s: Store): Store {
    if s.hard.commit == s.snapshot && s.wal != [] && LastIndex(s) < s.snapshot then ClearLog(s) else s
  }

  function AppendEvents(s: Store, entries: seq<Entry>): seq<Event>
    decreases |entries|
  {
    if entries == [] then [] else
    var cut := Truncate(s, entries[0].index);
    var grown := Push(cut, entries[0]);
    [Wrote(cut), Wrote(grown)] + AppendEvents(grown, entries[1..])
  }

  function Appended(s: Store, entries: seq<Entry>): Store
    decreases |entries|
  {
    if entries == [] then s else Appended(Push(Truncate(s, entries[0].index), entries[0]), entries[1..])
  }

  // Applies queued entries one by one, saving the progress after each.
  function ApplyEvents(s: Store, n: nat): seq<Event>
    decreases n
  {
    if n == 0 then [] else
    var next := s.(applied := s.applied + 1);
    [Applied(s.applied + 1), Wrote(next)] + ApplyEvents(next, n - 1)
  }

  // The queue while committed entries wait to be applied.
  function Queued(s: Store, committed: seq<Entry>): Store
    requires committed != []
  {
    var first, last := committed[0].index, committed[|committed| - 1].index;
    s.(applied := if first == 0 then 0 else first - 1, toApply := last)
  }

  function CommittedEvents(s: Store, committed: seq<Entry>): seq<Event> {
    if committed == [] then [] else
    [Wrote(Queued(s, committed))] + ApplyEvents(Queued(s, committed), |committed|)
  }

  function AfterCommitted(s: Store, committed: seq<Entry>): Store {
    if committed == [] then s else
    var last := committed[|committed| - 1].index;
    s.(applied := last, toApply := last)
  }

  // The state on disk when the persisted messages of a Ready go out.
  function Persisted(s: Store, r: Ready): Store {
    var b := Appended(Installed(s, r.snapshot), r.entries);
    if r.hard.Some? then b.(hard := r.hard.value) else b
  }

  function SnapshotEvents(s: Store, snapshot: Option<nat>): seq<Event> {
    if snapshot.Some? then [Wrote(SaveSnapshot(s, snapshot.value)), Wrote(Installed(s, snapshot))] else []
  }

  function HardEvents(s: Store, r: Ready): seq<Event> {
    if r.hard.Some? then [Wrote(Persisted(s, r))] else []
  }

  // The writes of a Ready that come before its persisted messages.
  function StorageEvents(s: Store, r: Ready): seq<Event> {
    SnapshotEvents(s, r.snapshot) + AppendEvents(Installed(s, r.snapshot), r.entries) + HardEvents(s, r)
  }

  function HeadEvents(s: Store, r: Ready): seq<Event> {
    [Sent(r.messages)] + StorageEvents(s, r) + [SentPersisted(r.persistedMessages)]
  }

  function ReadyEvents(s: Store, r: Ready): seq<Event> {
    HeadEvents(s, r) + CommittedEvents(Persisted(s, r), r.committed)
  }

  function AfterReady(s: Store, r: Ready): Store {
    AfterCommitted(Persisted(s, r), r.committed)
  }

  // A LightReady may carry only a new commit index.
  function Committed(s: Store, commit: Option<nat>): Store {
    if commit.Some? then s.(hard := s.hard.(commit := commit.value)) else s
  }

  function LightHeadEvents(s: Store, l: LightReady): seq<Event> {
    (if l.commit.Some? then [Wrote(Committed(s, l.commit))] else []) + [Sent(l.messages)]
  }

  function LightEvents(s: Store, l: LightReady): seq<Event> {
    LightHeadEvents(s, l) + CommittedEvents(Committed(s, l.commit), l.committed)
  }

  function AfterLight(s: Store, l: LightReady): Store {
    AfterCommitted(Committed(s, l.commit), l.committed)
  }

  // How many queued entries are applied and saved when an entry that removes this
  // peer, the stop-th of them, ends the replay early.
  function Replays(s: Store, stop: Option<nat>): nat
    requires s.applied <= s.toApply
  {
    if stop.Some? && stop.value < s.toApply - s.applied then stop.value else s.toApply - s.applied
  }

  // The entry that ends a replay early is applied, but its progress is not saved.
  function StopEvents(s: Store, stop: Option<nat>): seq<Event>
    requires s.applied <= s.toApply
  {
    if stop.Some? && stop.value < s.toApply - s.applied then [Applied(s.applied + stop.value + 1)] else []
  }

  function Replayed(s: Store, n: nat): Store {
    s.(applied := s.applied + n)
  }

  // Only the running node remembers what compaction has forgotten: when the store
  // is opened, entries still in the log's files are there again.
  function Reopened(s: Store, older: seq<Entry>): Store {
    if |older| <= s.walBase then s.(walBase := s.walBase - |older|, wal := older + s.wal) else s
  }

  ghost predicate OlderOk(s: Store, older: seq<Entry>) {
    older != [] ==>
      && s.wal != [] && |older| <= s.walBase
      && forall i :: 0 <= i < |older| ==> older[i].index == s.walBase - |older| + 1 + i
  }

  // Opening: a log that a snapshot outran is cleared, the queue that was left is
  // replayed, the log is compacted.
  function OpenEvents(s: Store, stop: Option<nat>, minEntries: nat): seq<Event>
    requires s.applied <= s.toApply
  {
    var r := Recover(s);
    [Wrote(r)] + (ApplyEvents(r, Replays(r, stop)) + StopEvents(r, stop))
    + [Wrote(Compact(Replayed(r, Replays(r, stop)), minEntries))]
  }

  function AfterOpen(s: Store, stop: Option<nat>, minEntries: nat): Store
    requires s.applied <= s.toApply
  {
    Compact(Replayed(Recover(s), Replays(Recover(s), stop)), minEntries)
  }

  // ---------------------------------------------------------------------
  // What the raft crate guarantees

  // Raft hands out the committed entries that follow the index it takes for
  // applied, or follow the beginning of the log if that is later.
  ghost predicate CommittedOk(s: Store, since: nat, committed: seq<Entry>) {
    committed != [] ==>
      && committed[0].index == (if since < s.walBase then s.walBase else since) + 1
      && (forall i :: 0 <= i < |committed| ==> committed[i].index == committed[0].index + i && Holds(s, committed[i]))
      && committed[|committed| - 1].index <= s.hard.commit
  }

  // The index raft takes for applied after handing these out.
  function SinceAfter(since: nat, committed: seq<Entry>): nat {
    if committed == [] then since else committed[|committed| - 1].index
  }

  ghost predicate EntriesOk(s: Store, entries: seq<Entry>) {
    && (forall i :: 0 <= i < |entries| ==> entries[i].index == entries[0].index + i)
    && (entries != [] ==> s.hard.commit < entries[0].index <= LastIndex(s) + 1)
  }

  function SinceSnapshot(since: nat, r: Ready): nat {
    if r.snapshot.Some? then r.snapshot.value else since
  }

  ghost predicate HardOk(s: Store, r: Ready) {
    r.hard.Some? ==>
      var b := Appended(Installed(s, r.snapshot), r.entries);
      b.hard.commit <= r.hard.value.commit <= LastIndex(b)
  }

  ghost predicate ReadyOk(s: Store, since: nat, r: Ready) {
    && (r.snapshot.Some? ==> r.snapshot.value >= s.hard.commit)
    && EntriesOk(Installed(s, r.snapshot), r.entries)
    && HardOk(s, r)
    && CommittedOk(Persisted(s, r), SinceSnapshot(since, r), r.committed)
  }

  function SinceReady(since: nat, r: Ready): nat {
    SinceAfter(SinceSnapshot(since, r), r.committed)
  }

  ghost predicate LightOk(s: Store, since: nat, l: LightReady) {
    && (l.commit.Some? ==> s.hard.commit <= l.commit.value <= LastIndex(s))
    && CommittedOk(Committed(s, l.commit), since, l.committed)
  }

  // ---------------------------------------------------------------------
  // Safe states and good event sequences

  // The one window where the indices are not in order: a snapshot has been saved
  // and the log it outran has not been cleared yet.
  ghost predicate Window(s: Store) {
    && s.wal != [] && LastIndex(s) < s.snapshot && Numbered(s)
    && s.applied == s.toApply == s.hard.commit == s.snapshot
  }

  ghost predicate Safe(s: Store) {
    InOrder(s) || Window(s)
  }

  // Opening always restores the order.
  lemma SafeRecovers(s: Store)
    requires Safe(s)
    ensures InOrder(Recover(s)) && (InOrder(s) ==> Recover(s) == s)
  {
  }

  // Entries that come back change neither the order nor where the log ends.
  lemma ReopenedIsSafe(s: Store, older: seq<Entry>)
    requires Safe(s) && OlderOk(s, older)
    ensures Safe(Reopened(s, older)) && LastIndex(Reopened(s, older)) == LastIndex(s)
    ensures InOrder(s) ==> InOrder(Reopened(s, older))
    ensures Reopened(s, older).wal == older + s.wal && Reopened(s, older).walBase + |older| == s.walBase
  {
    var t := Reopened(s, older);
    assert forall i :: 0 <= i < |t.wal| ==> t.wal[i].index == t.walBase + 1 + i;
  }

  function Then(s: Store, e: Event): Store {
    if e.Wrote? then e.store else s
  }

  // The store after a sequence of events.
  function End(s: Store, events: seq<Event>): Store
    decreases |events|
  {
    if events == [] then s else End(Then(s, events[0]), events[1..])
  }

  // A written state is safe. An entry is applied in its turn, is committed and
  // is still in the log.
  ghost predicate EventOk(s: Store, e: Event) {
    match e
    case Wrote(t) => Safe(t)
    case Applied(index) => InOrder(s) && index == s.applied + 1 <= s.hard.commit && InLog(s, index)
    case Sent(_) => true
    case SentPersisted(_) => true
  }

  ghost predicate Good(s: Store, events: seq<Event>)
    decreases |events|
  {
    events == [] || (EventOk(s, events[0]) && Good(Then(s, events[0]), events[1..]))
  }

  lemma {:induction false} EndConcat(s: Store, xs: seq<Event>, ys: seq<Event>)
    ensures End(s, xs + ys) == End(End(s, xs), ys)
    decreases |xs|
  {
    if xs == [] {
      assert xs + ys == ys;
    } else {
      EndConcat(Then(s, xs[0]), xs[1..], ys);
      assert (xs + ys)[1..] == xs[1..] + ys;
    }
  }

  lemma {:induction false} GoodConcat(s: Store, xs: seq<Event>, ys: seq<Event>)
    requires Good(s, xs) && Good(End(s, xs), ys)
    ensures Good(s, xs + ys)
    decreases |xs|
  {
    if xs == [] {
      assert xs + ys == ys;
    } else {
      GoodConcat(Then(s, xs[0]), xs[1..], ys);
      assert (xs + ys)[1..] == xs[1..] + ys;
    }
  }

  // Cut anywhere, a good sequence stays good and leaves a safe store.
  lemma {:induction false} GoodCut(s: Store, events: seq<Event>, k: nat)
    requires Safe(s) && Good(s, events) && k <= |events|
    ensures Good(s, events[..k]) && Safe(End(s, events[..k]))
    decreases k
  {
    if k > 0 {
      GoodCut(Then(s, events[0]), events[1..], k - 1);
      assert events[..k][1..] == events[1..][..k - 1];
    }
  }

  lemma GoodThree(s: Store, xs: seq<Event>, ys: seq<Event>, zs: seq<Event>)
    requires Good(s, xs) && Good(End(s, xs), ys) && Good(End(End(s, xs), ys), zs)
    ensures Good(s, xs + ys + zs) && End(s, xs + ys + zs) == End(End(End(s, xs), ys), zs)
  {
    GoodConcat(s, xs, ys);
    EndConcat(s, xs, ys);
    GoodConcat(s, xs + ys, zs);
    EndConcat(s, xs + ys, zs);
  }

  lemma GoodOne(s: Store, t: Store)
    requires Safe(t)
    ensures Good(s, [Wrote(t)]) && End(s, [Wrote(t)]) == t
  {
    assert [Wrote(t)][1..] == [];
  }

  // ---------------------------------------------------------------------
  // Every write of a Ready

  lemma AppendOne(s: Store, e: Entry)
    requires InOrder(s) && s.hard.commit < e.index <= LastIndex(s) + 1
    ensures InOrder(Truncate(s, e.index)) && InOrder(Push(Truncate(s, e.index), e))
    ensures LastIndex(Push(Truncate(s, e.index), e)) == e.index
    ensures Push(Truncate(s, e.index), e).hard == s.hard
  {
  }

  lemma RestOk(s: Store, entries: seq<Entry>)
    requires InOrder(s) && EntriesOk(s, entries) && entries != []
    ensures EntriesOk(Push(Truncate(s, entries[0].index), entries[0]), entries[1..])
    ensures |entries| > 1 ==> entries[1..][0].index == entries[0].index + 1
  {
    AppendOne(s, entries[0]);
    var rest := entries[1..];
    assert forall i :: 0 <= i < |rest| ==> rest[i] == entries[i + 1];
  }

  // All states written are in order.
  ghost predicate Orderly(events: seq<Event>) {
    forall i :: 0 <= i < |events| && events[i].Wrote? ==> InOrder(events[i].store)
  }

  lemma {:induction false} AppendInOrder(s: Store, entries: seq<Entry>)
    requires InOrder(s) && EntriesOk(s, entries)
    ensures Orderly(AppendEvents(s, entries)) && Good(s, AppendEvents(s, entries))
    ensures End(s, AppendEvents(s, entries)) == Appended(s, entries) && InOrder(Appended(s, entries))
    ensures Appended(s, entries).hard == s.hard && Appended(s, entries).applied == s.applied
    ensures Appended(s, entries).toApply == s.toApply && Appended(s, entries).snapshot == s.snapshot
    decreases |entries|
  {
    if entries != [] {
      AppendOne(s, entries[0]);
      RestOk(s, entries);
      var cut := Truncate(s, entries[0].index);
      var grown := Push(cut, entries[0]);
      AppendInOrder(grown, entries[1..]);
      TwoMore(s, Wrote(cut), Wrote(grown), AppendEvents(grown, entries[1..]));
    }
  }

  lemma TwoMore(s: Store, a: Event, b: Event, rest: seq<Event>)
    ensures End(s, [a, b] + rest) == End(Then(Then(s, a), b), rest)
    ensures Good(s, [a, b] + rest) <==> EventOk(s, a) && EventOk(Then(s, a), b) && Good(Then(Then(s, a), b), rest)
  {
    var all := [a, b] + rest;
    assert all[1..] == [b] + rest && all[1..][1..] == rest;
  }

  lemma {:induction false} ApplyInOrder(s: Store, n: nat)
    requires InOrder(s) && s.applied + n <= s.toApply
    ensures Orderly(ApplyEvents(s, n)) && Good(s, ApplyEvents(s, n))
    ensures End(s, ApplyEvents(s, n)) == s.(applied := s.applied + n) && InOrder(s.(applied := s.applied + n))
    decreases n
  {
    if n > 0 {
      var next := s.(applied := s.applied + 1);
      ApplyInOrder(next, n - 1);
      ApplyOne(s, next, ApplyEvents(next, n - 1));
    }
  }

  lemma ApplyOne(s: Store, next: Store, rest: seq<Event>)
    requires InOrder(s) && s.applied < s.toApply && next == s.(applied := s.applied + 1)
    requires Good(next, rest) && Orderly(rest)
    ensures
      var events := [Applied(s.applied + 1), Wrote(next)] + rest;
      Good(s, events) && Orderly(events) && End(s, events) == End(next, rest)
  {
    TwoMore(s, Applied(s.applied + 1), Wrote(next), rest);
  }

  lemma QueuedInOrder(s: Store, since: nat, committed: seq<Entry>)
    requires InOrder(s) && s.snapshot <= since && CommittedOk(s, since, committed) && committed != []
    ensures InOrder(Queued(s, committed)) && Queued(s, committed).toApply == Queued(s, committed).applied + |committed|
  {
    var n := |committed| - 1;
    assert committed[n].index == committed[0].index + n;
  }

  lemma CommittedInOrder(s: Store, since: nat, committed: seq<Entry>)
    requires InOrder(s) && s.snapshot <= since && CommittedOk(s, since, committed)
    ensures Orderly(CommittedEvents(s, committed)) && Good(s, CommittedEvents(s, committed))
    ensures End(s, CommittedEvents(s, committed)) == AfterCommitted(s, committed)
      && InOrder(AfterCommitted(s, committed))
  {
    if committed != [] {
      var q, n := Queued(s, committed), |committed|;
      QueuedInOrder(s, since, committed);
      ApplyInOrder(q, n);
      AfterWrite(s, q, ApplyEvents(q, n));
    }
  }

  // The committed entry that removes this peer is applied, and then neither its
  // progress is saved nor is any other applied.
  function StoppedEvents(s: Store, committed: seq<Entry>, at: nat): seq<Event>
    requires at < |committed|
  {
    var q := Queued(s, committed);
    [Wrote(q)] + (ApplyEvents(q, at) + [Applied(q.applied + at + 1)])
  }

  function StoppedStore(s: Store, committed: seq<Entry>, at: nat): Store
    requires at < |committed|
  {
    Replayed(Queued(s, committed), at)
  }

  lemma ReplayStops(s: Store, at: nat)
    requires InOrder(s) && s.applied + at < s.toApply
    ensures
      var events := ApplyEvents(s, at) + [Applied(s.applied + at + 1)];
      Good(s, events) && End(s, events) == Replayed(s, at) && InOrder(Replayed(s, at))
  {
    ReplayInOrder(s, Some(at));
  }

  lemma AfterWrite(s: Store, t: Store, events: seq<Event>)
    requires Safe(t) && Good(t, events)
    ensures Good(s, [Wrote(t)] + events) && End(s, [Wrote(t)] + events) == End(t, events)
  {
    assert ([Wrote(t)] + events)[1..] == events;
  }

  lemma StopsAfterWrite(s: Store, q: Store, at: nat)
    requires InOrder(q) && q.applied + at < q.toApply
    ensures
      var events := [Wrote(q)] + (ApplyEvents(q, at) + [Applied(q.applied + at + 1)]);
      Good(s, events) && End(s, events) == Replayed(q, at) && InOrder(Replayed(q, at))
  {
    ReplayStops(q, at);
    AfterWrite(s, q, ApplyEvents(q, at) + [Applied(q.applied + at + 1)]);
  }

  // The save of a snapshot is out of order exactly if it outruns a log.
  lemma SnapshotWindow(s: Store, index: nat)
    requires InOrder(s) && index >= s.hard.commit
    ensures Safe(SaveSnapshot(s, index)) && InOrder(ClearLog(SaveSnapshot(s, index)))
    ensures InOrder(SaveSnapshot(s, index)) <==> !(s.wal != [] && LastIndex(s) < index)
  {
  }

  lemma SnapshotGood(s: Store, snapshot: Option<nat>)
    requires InOrder(s) && (snapshot.Some? ==> snapshot.value >= s.hard.commit)
    ensures Good(s, SnapshotEvents(s, snapshot)) && End(s, SnapshotEvents(s, snapshot)) == Installed(s, snapshot)
    ensures InOrder(Installed(s, snapshot))
  {
    if snapshot.Some? {
      SnapshotWindow(s, snapshot.value);
      var a, b := SaveSnapshot(s, snapshot.value), Installed(s, snapshot);
      TwoMore(s, Wrote(a), Wrote(b), []);
      assert [Wrote(a), Wrote(b)] + [] == [Wrote(a), Wrote(b)];
    }
  }

  lemma HardGood(s: Store, r: Ready)
    requires InOrder(Appended(Installed(s, r.snapshot), r.entries)) && HardOk(s, r)
    ensures InOrder(Persisted(s, r))
    ensures
      var b := Appended(Installed(s, r.snapshot), r.entries);
      Good(b, HardEvents(s, r)) && End(b, HardEvents(s, r)) == Persisted(s, r)
  {
    if r.hard.Some? { GoodOne(Appended(Installed(s, r.snapshot), r.entries), Persisted(s, r)); }
  }

  lemma StorageGood(s: Store, since: nat, r: Ready)
    requires InOrder(s) && ReadyOk(s, since, r)
    ensures Good(s, StorageEvents(s, r)) && End(s, StorageEvents(s, r)) == Persisted(s, r) && InOrder(Persisted(s, r))
    ensures Persisted(s, r).snapshot == Installed(s, r.snapshot).snapshot
  {
    var a := Installed(s, r.snapshot);
    var xs, ys, zs := SnapshotEvents(s, r.snapshot), AppendEvents(a, r.entries), HardEvents(s, r);
    SnapshotGood(s, r.snapshot);
    AppendInOrder(a, r.entries);
    HardGood(s, r);
    GoodThree(s, xs, ys, zs);
  }

  lemma Silent(s: Store, e: Event)
    requires e.Sent? || e.SentPersisted?
    ensures Good(s, [e]) && End(s, [e]) == s
  {
    assert [e][1..] == [];
  }

  // Processing a Ready leaves a safe store after every single write, and applies
  // each entry in its turn.
  lemma ReadySafe(s: Store, since: nat, r: Ready)
    requires InOrder(s) && s.snapshot <= since && ReadyOk(s, since, r)
    ensures Good(s, ReadyEvents(s, r)) && End(s, ReadyEvents(s, r)) == AfterReady(s, r) && InOrder(AfterReady(s, r))
    ensures AfterReady(s, r).snapshot <= SinceReady(since, r)
  {
    var p := Persisted(s, r);
    var a, b, c, d := [Sent(r.messages)], StorageEvents(s, r), [SentPersisted(r.persistedMessages)],
      CommittedEvents(p, r.committed);
    StorageGood(s, since, r);
    CommittedInOrder(p, SinceSnapshot(since, r), r.committed);
    Silent(s, a[0]);
    Silent(p, c[0]);
    GoodConcat(s, a, b);
    EndConcat(s, a, b);
    GoodConcat(s, a + b, c);
    EndConcat(s, a + b, c);
    GoodConcat(s, a + b + c, d);
    EndConcat(s, a + b + c, d);
    SinceGrows(p, SinceSnapshot(since, r), r.committed);
  }

  lemma SinceGrows(s: Store, since: nat, committed: seq<Entry>)
    requires CommittedOk(s, since, committed)
    ensures since <= SinceAfter(since, committed)
    ensures since <= s.applied ==> SinceAfter(since, committed) <= AfterCommitted(s, committed).applied
  {
    if committed != [] {
      var n := |committed| - 1;
      assert committed[n].index == committed[0].index + n;
    }
  }

  lemma LightHead(s: Store, l: LightReady)
    requires InOrder(s) && (l.commit.Some? ==> s.hard.commit <= l.commit.value <= LastIndex(s))
    ensures Good(s, LightHeadEvents(s, l)) && End(s, LightHeadEvents(s, l)) == Committed(s, l.commit)
    ensures Orderly(LightHeadEvents(s, l)) && InOrder(Committed(s, l.commit))
  {
    var c := Committed(s, l.commit);
    var xs, ys := if l.commit.Some? then [Wrote(c)] else [], [Sent(l.messages)];
    if l.commit.Some? { GoodOne(s, c); }
    Silent(c, ys[0]);
    GoodConcat(s, xs, ys);
    EndConcat(s, xs, ys);
  }

  lemma LightSafe(s: Store, since: nat, l: LightReady)
    requires InOrder(s) && s.snapshot <= since && LightOk(s, since, l)
    ensures Good(s, LightEvents(s, l)) && End(s, LightEvents(s, l)) == AfterLight(s, l) && InOrder(AfterLight(s, l))
    ensures Orderly(LightEvents(s, l))
  {
    var c := Committed(s, l.commit);
    var xs, ys := LightHeadEvents(s, l), CommittedEvents(c, l.committed);
    LightHead(s, l);
    CommittedInOrder(c, since, l.committed);
    GoodConcat(s, xs, ys);
    EndConcat(s, xs, ys);
    OrderlyConcat(xs, ys);
  }

  // Compaction keeps the order.
  lemma CompactInOrder(s: Store, minEntries: nat)
    requires InOrder(s)
    ensures InOrder(Compact(s, minEntries)) && LastIndex(Compact(s, minEntries)) == LastIndex(s)
  {
    var t := Compact(s, minEntries);
    if t != s {
      var k := s.applied - 1 - s.walBase;
      assert forall i :: 0 <= i < |t.wal| ==> t.wal[i] == s.wal[k + i];
    }
  }

  // It keeps every entry from the last applied one on, and does nothing exactly
  // if there are too few entries below that.
  lemma CompactKeeps(s: Store, minEntries: nat, e: Entry)
    requires InOrder(s)
    ensures Holds(s, e) && s.applied <= e.index ==> Holds(Compact(s, minEntries), e)
    ensures Compact(s, minEntries) == s <==> minEntries == 0 || s.wal == [] || s.applied < s.walBase + 1 + minEntries
  {
  }

  lemma ReplayInOrder(s: Store, stop: Option<nat>)
    requires InOrder(s)
    ensures
      var events, n := ApplyEvents(s, Replays(s, stop)) + StopEvents(s, stop), Replays(s, stop);
      && Good(s, events) && Orderly(events)
      && End(s, events) == Replayed(s, n) && InOrder(Replayed(s, n))
  {
    var n := Replays(s, stop);
    ApplyInOrder(s, n);
    var xs, ys := ApplyEvents(s, n), StopEvents(s, stop);
    if ys != [] { assert ys[1..] == []; }
    GoodConcat(s, xs, ys);
    EndConcat(s, xs, ys);
  }

  // Opening leaves the store in order, wherever the last run was cut.
  lemma OpenSafe(s: Store, stop: Option<nat>, minEntries: nat)
    requires Safe(s)
    ensures Good(s, OpenEvents(s, stop, minEntries))
      && End(s, OpenEvents(s, stop, minEntries)) == AfterOpen(s, stop, minEntries)
    ensures InOrder(AfterOpen(s, stop, minEntries))
    ensures AfterOpen(s, stop, minEntries).applied == s.applied + Replays(s, stop)
    ensures AfterOpen(s, stop, minEntries).snapshot == s.snapshot
  {
    SafeRecovers(s);
    var r := Recover(s);
    var p := Replayed(r, Replays(r, stop));
    ReplayInOrder(r, stop);
    CompactInOrder(p, minEntries);
    GoodOne(s, r);
    GoodOne(p, Compact(p, minEntries));
    GoodThree(s, [Wrote(r)], ApplyEvents(r, Replays(r, stop)) + StopEvents(r, stop), [Wrote(Compact(p, minEntries))]);
  }

  lemma OpenIsOrderly(s: Store, stop: Option<nat>, minEntries: nat)
    requires Safe(s)
    ensures Orderly(OpenEvents(s, stop, minEntries))
  {
    SafeRecovers(s);
    var r := Recover(s);
    var p := Replayed(r, Replays(r, stop));
    var events := ApplyEvents(r, Replays(r, stop)) + StopEvents(r, stop);
    ReplayInOrder(r, stop);
    CompactInOrder(p, minEntries);
    OrderlyConcat([Wrote(r)], events);
    OrderlyConcat([Wrote(r)] + events, [Wrote(Compact(p, minEntries))]);
  }

  // ---------------------------------------------------------------------
  // The snapshot window, exactly

  lemma OrderlyConcat(xs: seq<Event>, ys: seq<Event>)
    requires Orderly(xs) && Orderly(ys)
    ensures Orderly(xs + ys)
  {
  }

  // What follows the snapshot writes of a Ready.
  function LaterEvents(s: Store, r: Ready): seq<Event> {
    AppendEvents(Installed(s, r.snapshot), r.entries) + HardEvents(s, r) + [SentPersisted(r.persistedMessages)]
    + CommittedEvents(Persisted(s, r), r.committed)
  }

  lemma LaterIsOrderly(s: Store, since: nat, r: Ready)
    requires InOrder(s) && s.snapshot <= since && ReadyOk(s, since, r)
    ensures Orderly(LaterEvents(s, r))
  {
    var a := Installed(s, r.snapshot);
    SnapshotGood(s, r.snapshot);
    AppendInOrder(a, r.entries);
    StorageGood(s, since, r);
    CommittedInOrder(Persisted(s, r), SinceSnapshot(since, r), r.committed);
    var xs, ys := AppendEvents(a, r.entries), HardEvents(s, r);
    OrderlyConcat(xs, ys);
    OrderlyConcat(xs + ys, [SentPersisted(r.persistedMessages)]);
    OrderlyConcat(xs + ys + [SentPersisted(r.persistedMessages)], CommittedEvents(Persisted(s, r), r.committed));
  }

  lemma ReadySplits(s: Store, r: Ready)
    ensures ReadyEvents(s, r) == [Sent(r.messages)] + SnapshotEvents(s, r.snapshot) + LaterEvents(s, r)
  {
    Reassociate([Sent(r.messages)], SnapshotEvents(s, r.snapshot), AppendEvents(Installed(s, r.snapshot), r.entries),
                HardEvents(s, r), [SentPersisted(r.persistedMessages)], CommittedEvents(Persisted(s, r), r.committed));
  }

  lemma Reassociate(a: seq<Event>, b: seq<Event>, c: seq<Event>, d: seq<Event>, e: seq<Event>, f: seq<Event>)
    ensures a + (b + c + d) + e + f == a + b + (c + d + e + f)
  {
  }

  // A write of a Ready is out of order exactly if it is the save of a snapshot
  // that lies past the end of a log.
  lemma WindowExactly(s: Store, since: nat, r: Ready, j: nat)
    requires InOrder(s) && s.snapshot <= since && ReadyOk(s, since, r)
    requires j < |ReadyEvents(s, r)| && ReadyEvents(s, r)[j].Wrote?
    ensures !InOrder(ReadyEvents(s, r)[j].store) <==>
      j == 1 && r.snapshot.Some? && s.wal != [] && LastIndex(s) < r.snapshot.value
  {
    LaterIsOrderly(s, since, r);
    ReadySplits(s, r);
    var head, later := [Sent(r.messages)] + SnapshotEvents(s, r.snapshot), LaterEvents(s, r);
    if j >= |head| {
      assert ReadyEvents(s, r)[j] == later[j - |head|];
    } else {
      assert ReadyEvents(s, r)[j] == head[j];
      SnapshotWindow(s, r.snapshot.value);
    }
  }

  // It happens: two entries in the log, and a snapshot at five.
  lemma WindowHappens(s: Store, r: Ready)
    requires s == Store(0, 0, [Entry(1, 1, 0), Entry(2, 1, 0)], HardState(1, 0, 0), 0, 0)
    requires r == Ready([], Some(5), [], None, [], [])
    ensures InOrder(s) && ReadyOk(s, 0, r)
    ensures ReadyEvents(s, r)[1] == Wrote(SaveSnapshot(s, 5))
    ensures SaveSnapshot(s, 5).hard.commit == 5 && LastIndex(SaveSnapshot(s, 5)) == 2
  {
  }

  // ---------------------------------------------------------------------
  // Whole runs with crashes

  // A node: its disk, whether it is running, and the index raft takes for
  // applied while it is.
  datatype Node = Node(disk: Store, up: bool, since: nat)

  // A node is opened, finding older entries in its log again, or one pass of the
  // loop is made; a crash cuts either after some number of events. The stop-th
  // replayed entry, or committed entry of the LightReady, may remove this peer;
  // if one of the Ready does, the pass is cut there.
  datatype Step =
    | Open(older: seq<Entry>, stop: Option<nat>, cut: Option<nat>)
    | Pass(ready: Ready, light: LightReady, stop: Option<nat>, cut: Option<nat>)

  predicate Stops(l: LightReady, stop: Option<nat>) {
    stop.Some? && stop.value < |l.committed|
  }

  // What a LightReady writes; the loop ends after a stop.
  function EitherEvents(s: Store, l: LightReady, stop: Option<nat>): seq<Event> {
    if Stops(l, stop) then LightHeadEvents(s, l) + StoppedEvents(Committed(s, l.commit), l.committed, stop.value)
    else LightEvents(s, l)
  }

  function AfterEither(s: Store, l: LightReady, stop: Option<nat>): Store {
    if Stops(l, stop) then StoppedStore(Committed(s, l.commit), l.committed, stop.value) else AfterLight(s, l)
  }

  // The log is compacted after a LightReady in either case.
  function FinishEvents(s: Store, l: LightReady, stop: Option<nat>, minEntries: nat): seq<Event> {
    EitherEvents(s, l, stop) + [Wrote(Compact(AfterEither(s, l, stop), minEntries))]
  }

  function PassEvents(s: Store, r: Ready, l: LightReady, stop: Option<nat>, minEntries: nat): seq<Event> {
    ReadyEvents(s, r) + FinishEvents(AfterReady(s, r), l, stop, minEntries)
  }

  function AllEvents(node: Node, step: Step, minEntries: nat): seq<Event>
    requires node.disk.applied <= node.disk.toApply
  {
    match step
    case Open(older, stop, _) => OpenEvents(Reopened(node.disk, older), stop, minEntries)
    case Pass(r, l, stop, _) => PassEvents(node.disk, r, l, stop, minEntries)
  }

  function StepEvents(node: Node, step: Step, minEntries: nat): seq<Event>
    requires node.disk.applied <= node.disk.toApply
  {
    var all := AllEvents(node, step, minEntries);
    if step.cut.Some? && step.cut.value < |all| then all[..step.cut.value] else all
  }

  // Raft is configured with the applied index found before the queue is drained.
  function After(node: Node, step: Step, minEntries: nat): Node
    requires node.disk.applied <= node.disk.toApply
  {
    Node(End(node.disk, StepEvents(node, step, minEntries)),
         step.cut.None? && (step.Pass? ==> !Stops(step.light, step.stop)),
         match step
         case Open(_, _, _) => node.disk.applied
         case Pass(r, l, _, _) => SinceAfter(SinceReady(node.since, r), l.committed))
  }

  ghost predicate StepOk(node: Node, step: Step) {
    match step
    case Open(older, _, _) => !node.up && OlderOk(node.disk, older)
    case Pass(r, l, _, _) =>
      && node.up && ReadyOk(node.disk, node.since, r)
      && LightOk(AfterReady(node.disk, r), SinceReady(node.since, r), l)
  }

  ghost predicate NodeOk(node: Node) {
    && Safe(node.disk)
    && (node.up ==> InOrder(node.disk) && node.disk.snapshot <= node.since <= node.disk.applied)
  }

  lemma LightStops(s: Store, c: Store, l: LightReady, at: nat)
    requires at < |l.committed| && c == Committed(s, l.commit)
    requires Good(s, LightHeadEvents(s, l)) && End(s, LightHeadEvents(s, l)) == c
    requires InOrder(Queued(c, l.committed))
    requires Queued(c, l.committed).toApply == Queued(c, l.committed).applied + |l.committed|
    ensures
      var events := LightHeadEvents(s, l) + StoppedEvents(c, l.committed, at);
      && Good(s, events) && End(s, events) == StoppedStore(c, l.committed, at)
      && InOrder(StoppedStore(c, l.committed, at))
  {
    StopsAfterWrite(c, Queued(c, l.committed), at);
    GoodConcat(s, LightHeadEvents(s, l), StoppedEvents(c, l.committed, at));
    EndConcat(s, LightHeadEvents(s, l), StoppedEvents(c, l.committed, at));
  }

  lemma EitherSafe(s: Store, since: nat, l: LightReady, stop: Option<nat>)
    requires InOrder(s) && s.snapshot <= since && LightOk(s, since, l)
    ensures Good(s, EitherEvents(s, l, stop)) && End(s, EitherEvents(s, l, stop)) == AfterEither(s, l, stop)
    ensures InOrder(AfterEither(s, l, stop))
  {
    if Stops(l, stop) {
      LightHead(s, l);
      QueuedInOrder(Committed(s, l.commit), since, l.committed);
      LightStops(s, Committed(s, l.commit), l, stop.value);
    } else {
      LightSafe(s, since, l);
    }
  }

  lemma FinishSafe(s: Store, since: nat, l: LightReady, stop: Option<nat>, minEntries: nat)
    requires InOrder(s) && s.snapshot <= since && LightOk(s, since, l)
    ensures Good(s, FinishEvents(s, l, stop, minEntries))
    ensures End(s, FinishEvents(s, l, stop, minEntries)) == Compact(AfterEither(s, l, stop), minEntries)
    ensures InOrder(Compact(AfterEither(s, l, stop), minEntries))
  {
    var b := AfterEither(s, l, stop);
    EitherSafe(s, since, l, stop);
    CompactInOrder(b, minEntries);
    GoodOne(b, Compact(b, minEntries));
    GoodConcat(s, EitherEvents(s, l, stop), [Wrote(Compact(b, minEntries))]);
    EndConcat(s, EitherEvents(s, l, stop), [Wrote(Compact(b, minEntries))]);
  }

  lemma PassSafe(s: Store, since: nat, r: Ready, l: LightReady, stop: Option<nat>, minEntries: nat)
    requires InOrder(s) && s.snapshot <= since <= s.applied
    requires ReadyOk(s, since, r) && LightOk(AfterReady(s, r), SinceReady(since, r), l)
    ensures Good(s, PassEvents(s, r, l, stop, minEntries))
    ensures
      var t, after := End(s, PassEvents(s, r, l, stop, minEntries)), SinceAfter(SinceReady(since, r), l.committed);
      InOrder(t) && (!Stops(l, stop) ==> t.snapshot <= after <= t.applied)
  {
    var a := AfterReady(s, r);
    ReadySafe(s, since, r);
    FinishSafe(a, SinceReady(since, r), l, stop, minEntries);
    GoodConcat(s, ReadyEvents(s, r), FinishEvents(a, l, stop, minEntries));
    EndConcat(s, ReadyEvents(s, r), FinishEvents(a, l, stop, minEntries));
    PassSince(s, since, r, l);
  }

  lemma PassSince(s: Store, since: nat, r: Ready, l: LightReady)
    requires InOrder(s) && s.snapshot <= since <= s.applied
    requires ReadyOk(s, since, r) && LightOk(AfterReady(s, r), SinceReady(since, r), l)
    ensures
      var b, after := AfterLight(AfterReady(s, r), l), SinceAfter(SinceReady(since, r), l.committed);
      b.snapshot <= after <= b.applied
  {
    SnapshotGood(s, r.snapshot);
    AppendInOrder(Installed(s, r.snapshot), r.entries);
    SinceGrows(Persisted(s, r), SinceSnapshot(since, r), r.committed);
    SinceGrows(Committed(AfterReady(s, r), l.commit), SinceReady(since, r), l.committed);
  }

  lemma ReopenSafe(s: Store, older: seq<Entry>, stop: Option<nat>, minEntries: nat)
    requires Safe(s) && OlderOk(s, older)
    ensures
      var t := Reopened(s, older);
      && Safe(t) && Good(s, OpenEvents(t, stop, minEntries))
      && End(s, OpenEvents(t, stop, minEntries)) == AfterOpen(t, stop, minEntries)
      && InOrder(AfterOpen(t, stop, minEntries))
      && AfterOpen(t, stop, minEntries).snapshot == s.snapshot && s.applied <= AfterOpen(t, stop, minEntries).applied
  {
    ReopenedIsSafe(s, older);
    OpenSafe(Reopened(s, older), stop, minEntries);
  }

  lemma StepSafe(node: Node, step: Step, minEntries: nat)
    requires NodeOk(node) && StepOk(node, step)
    ensures Good(node.disk, StepEvents(node, step, minEntries)) && NodeOk(After(node, step, minEntries))
  {
    match step {
      case Open(older, stop, _) => ReopenSafe(node.disk, older, stop, minEntries);
      case Pass(r, l, stop, _) => PassSafe(node.disk, node.since, r, l, stop, minEntries);
    }
    var all := AllEvents(node, step, minEntries);
    if step.cut.Some? {
      GoodCut(node.disk, all, if step.cut.value < |all| then step.cut.value else |all|);
      assert all[..|all|] == all;
    }
  }

  // The node after a run; a run that is not allowed stops where it is.
  function RunNode(node: Node, minEntries: nat, steps: seq<Step>): Node {
    if steps == [] then node else
    var before := RunNode(node, minEntries, steps[..|steps| - 1]);
    if before.disk.applied <= before.disk.toApply then After(before, steps[|steps| - 1], minEntries) else before
  }

  ghost predicate RunOk(node: Node, minEntries: nat, steps: seq<Step>) {
    steps == [] ||
    (var before := steps[..|steps| - 1];
     RunOk(node, minEntries, before) && StepOk(RunNode(node, minEntries, before), steps[|steps| - 1]))
  }

  // Every event of every step is as it should be.
  ghost predicate RunGood(node: Node, minEntries: nat, steps: seq<Step>) {
    steps == [] ||
    (var before := RunNode(node, minEntries, steps[..|steps| - 1]);
     && RunGood(node, minEntries, steps[..|steps| - 1])
     && before.disk.applied <= before.disk.toApply
     && Good(before.disk, StepEvents(before, steps[|steps| - 1], minEntries)))
  }

  // In every run of openings and passes, cut by crashes anywhere or stopped by an
  // entry that removes the peer: every state ever written is in order or in the
  // snapshot window, every entry is applied in its turn from the log, and a
  // running node's indices are in order.
  lemma {:induction false} RunSafe(node: Node, minEntries: nat, steps: seq<Step>)
    requires NodeOk(node) && RunOk(node, minEntries, steps)
    ensures NodeOk(RunNode(node, minEntries, steps)) && RunGood(node, minEntries, steps)
    decreases |steps|
  {
    if steps != [] {
      var before := steps[..|steps| - 1];
      RunSafe(node, minEntries, before);
      StepSafe(RunNode(node, minEntries, before), steps[|steps| - 1], minEntries);
    }
  }

  // ---------------------------------------------------------------------
  // Entries applied twice

  lemma {:induction false} AppliedRange(s: Store, n: nat, i: nat)
    ensures Applied(i) in ApplyEvents(s, n) <==> s.applied < i <= s.applied + n
    decreases n
  {
    if n > 0 {
      var next := s.(applied := s.applied + 1);
      AppliedRange(next, n - 1, i);
      var head, rest := [Applied(s.applied + 1), Wrote(next)], ApplyEvents(next, n - 1);
      assert Applied(i) in head + rest <==> Applied(i) in head || Applied(i) in rest;
    }
  }

  lemma {:induction false} AppendAppliesNothing(s: Store, entries: seq<Entry>, i: nat)
    ensures Applied(i) !in AppendEvents(s, entries)
    decreases |entries|
  {
    if entries != [] { AppendAppliesNothing(Push(Truncate(s, entries[0].index), entries[0]), entries[1..], i); }
  }

  // The last index that the opening applies, saved or not.
  function OpenReach(s: Store, stop: Option<nat>): (n: nat)
    requires s.applied <= s.toApply
    ensures n == if stop.Some? && stop.value < s.toApply - s.applied then s.applied + stop.value + 1 else s.toApply
  {
    s.applied + Replays(s, stop) + |StopEvents(s, stop)|
  }

  lemma OpenApplies(s: Store, stop: Option<nat>, minEntries: nat, i: nat)
    requires Safe(s)
    ensures Applied(i) in OpenEvents(s, stop, minEntries) <==> s.applied < i <= OpenReach(s, stop)
  {
    var r := Recover(s);
    AppliedRange(r, Replays(r, stop), i);
    var xs, ys := ApplyEvents(r, Replays(r, stop)), StopEvents(r, stop);
    assert Applied(i) in xs + ys <==> Applied(i) in xs || Applied(i) in ys;
  }

  lemma ReadyApplies(s: Store, r: Ready, i: nat)
    requires forall k :: 0 <= k < |r.committed| ==> r.committed[k].index == r.committed[0].index + k
    requires r.committed != [] ==> r.committed[0].index > 0
    ensures Applied(i) in ReadyEvents(s, r) <==>
      r.committed != [] && r.committed[0].index <= i <= r.committed[|r.committed| - 1].index
  {
    var p := Persisted(s, r);
    AppendAppliesNothing(Installed(s, r.snapshot), r.entries, i);
    var xs, ys := [Sent(r.messages)] + StorageEvents(s, r) + [SentPersisted(r.persistedMessages)],
      CommittedEvents(p, r.committed);
    assert Applied(i) !in xs;
    if r.committed != [] {
      AppliedRange(Queued(p, r.committed), |r.committed|, i);
      assert Applied(i) in ys <==> Applied(i) in ApplyEvents(Queued(p, r.committed), |r.committed|);
    }
  }

  // Raft, opened with the applied index found on disk, does not know what the
  // opening applies. So the first entries it hands out contain one that was
  // applied already, exactly if the queue had not been drained.
  lemma AppliedTwice(s: Store, stop: Option<nat>, minEntries: nat, r: Ready)
    requires Safe(s) && r.snapshot.None? && r.committed != []
    requires ReadyOk(AfterOpen(s, stop, minEntries), s.applied, r)
    ensures
      (exists i: nat ::
         Applied(i) in OpenEvents(s, stop, minEntries) && Applied(i) in ReadyEvents(AfterOpen(s, stop, minEntries), r))
      <==> s.applied < s.toApply
  {
    var o, first := AfterOpen(s, stop, minEntries), r.committed[0].index;
    if i: nat :| Applied(i) in OpenEvents(s, stop, minEntries) && Applied(i) in ReadyEvents(o, r) {
      OpenApplies(s, stop, minEntries, i);
    }
    if s.applied < s.toApply {
      FirstIsReplayed(s, stop, minEntries, r);
      OpenApplies(s, stop, minEntries, first);
      FirstIsApplied(o, s.applied, r);
      assert Applied(first) in OpenEvents(s, stop, minEntries) && Applied(first) in ReadyEvents(o, r);
    }
  }

  lemma FirstIsApplied(s: Store, since: nat, r: Ready)
    requires ReadyOk(s, since, r) && r.committed != []
    ensures Applied(r.committed[0].index) in ReadyEvents(s, r)
  {
    var n := |r.committed| - 1;
    assert r.committed[n].index == r.committed[0].index + n;
    ReadyApplies(s, r, r.committed[0].index);
  }

  lemma FirstIsReplayed(s: Store, stop: Option<nat>, minEntries: nat, r: Ready)
    requires Safe(s) && r.snapshot.None? && r.committed != [] && s.applied < s.toApply
    requires ReadyOk(AfterOpen(s, stop, minEntries), s.applied, r)
    ensures s.applied < r.committed[0].index <= OpenReach(s, stop)
  {
    OpenSafe(s, stop, minEntries);
    var o := AfterOpen(s, stop, minEntries);
    AppendBase(o, r.entries);
  }

  lemma {:induction false} AppendBase(s: Store, entries: seq<Entry>)
    requires InOrder(s) && EntriesOk(s, entries) && s.wal != [] && s.walBase < s.hard.commit
    ensures Appended(s, entries).walBase == s.walBase && Appended(s, entries).wal != []
    decreases |entries|
  {
    if entries != [] {
      AppendOne(s, entries[0]);
      RestOk(s, entries);
      AppendBase(Push(Truncate(s, entries[0].index), entries[0]), entries[1..]);
    }
  }

  lemma TwiceOpened(s: Store)
    requires s == Store(0, 0, [Entry(1, 1, 0), Entry(2, 1, 0)], HardState(1, 0, 2), 0, 2)
    ensures InOrder(s) && AfterOpen(s, None, 128) == s.(applied := 2)
  {
    assert LastIndex(s) == 2;
    assert Recover(s) == s && Replays(s, None) == 2;
  }

  lemma TwiceDelivered(s: Store, r: Ready)
    requires s == Store(0, 0, [Entry(1, 1, 0), Entry(2, 1, 0)], HardState(1, 0, 2), 2, 2)
    requires r == Ready([], None, [], None, [], s.wal)
    ensures ReadyOk(s, 0, r)
  {
    assert Persisted(s, r) == s;
    assert |s.wal| == 2 && s.wal[0] == Entry(1, 1, 0) && s.wal[1] == Entry(2, 1, 0);
    assert Holds(s, s.wal[0]) && Holds(s, s.wal[1]);
    assert CommittedOk(s, 0, r.committed);
  }

  // It happens: two entries committed and queued, a crash before either was
  // applied.
  lemma TwiceHappens(s: Store, r: Ready)
    requires s == Store(0, 0, [Entry(1, 1, 0), Entry(2, 1, 0)], HardState(1, 0, 2), 0, 2)
    requires r == Ready([], None, [], None, [], s.wal)
    ensures InOrder(s) && ReadyOk(AfterOpen(s, None, 128), s.applied, r)
    ensures exists i: nat ::
      Applied(i) in OpenEvents(s, None, 128) && Applied(i) in ReadyEvents(AfterOpen(s, None, 128), r)
  {
    TwiceOpened(s);
    TwiceDelivered(s.(applied := 2), r);
    AppliedTwice(s, None, 128, r);
  }

  // ---------------------------------------------------------------------
  // Persisted messages

  lemma AppendOneHolds(s: Store, e: Entry, kept: Entry)
    requires InOrder(s) && s.hard.commit < e.index <= LastIndex(s) + 1
    ensures Holds(Push(Truncate(s, e.index), e), e)
    ensures Holds(s, kept) && kept.index < e.index ==> Holds(Push(Truncate(s, e.index), e), kept)
  {
  }

  lemma {:induction false} AppendKeeps(s: Store, entries: seq<Entry>, kept: Entry)
    requires InOrder(s) && EntriesOk(s, entries)
    requires Holds(s, kept) && (entries != [] ==> kept.index < entries[0].index)
    ensures Holds(Appended(s, entries), kept)
    decreases |entries|
  {
    if entries != [] {
      AppendOne(s, entries[0]);
      AppendOneHolds(s, entries[0], kept);
      RestOk(s, entries);
      AppendKeeps(Push(Truncate(s, entries[0].index), entries[0]), entries[1..], kept);
    }
  }

  lemma {:induction false} AppendHolds(s: Store, entries: seq<Entry>, i: nat)
    requires InOrder(s) && EntriesOk(s, entries) && i < |entries|
    ensures Holds(Appended(s, entries), entries[i])
    decreases |entries|
  {
    AppendOne(s, entries[0]);
    AppendOneHolds(s, entries[0], entries[0]);
    RestOk(s, entries);
    var grown := Push(Truncate(s, entries[0].index), entries[0]);
    if i == 0 { AppendKeeps(grown, entries[1..], entries[0]); } else { AppendHolds(grown, entries[1..], i - 1); }
  }

  ghost predicate NoPersistedSend(events: seq<Event>) {
    forall i :: 0 <= i < |events| ==> !events[i].SentPersisted?
  }

  lemma {:induction false} AppendHasNoSend(s: Store, entries: seq<Entry>)
    ensures NoPersistedSend(AppendEvents(s, entries))
    decreases |entries|
  {
    if entries != [] { AppendHasNoSend(Push(Truncate(s, entries[0].index), entries[0]), entries[1..]); }
  }

  lemma {:induction false} ApplyHasNoSend(s: Store, n: nat)
    ensures NoPersistedSend(ApplyEvents(s, n))
    decreases n
  {
    if n > 0 { ApplyHasNoSend(s.(applied := s.applied + 1), n - 1); }
  }

  lemma StorageHasNoSend(s: Store, r: Ready)
    ensures NoPersistedSend(StorageEvents(s, r)) && NoPersistedSend(CommittedEvents(Persisted(s, r), r.committed))
  {
    AppendHasNoSend(Installed(s, r.snapshot), r.entries);
    if r.committed != [] { ApplyHasNoSend(Queued(Persisted(s, r), r.committed), |r.committed|); }
  }

  // Exactly the storage writes and the first messages come before.
  lemma SendPosition(s: Store, r: Ready, j: nat)
    requires j < |ReadyEvents(s, r)| && ReadyEvents(s, r)[j].SentPersisted?
    ensures ReadyEvents(s, r)[..j] == [Sent(r.messages)] + StorageEvents(s, r)
  {
    StorageHasNoSend(s, r);
    var head, tail := [Sent(r.messages)] + StorageEvents(s, r), CommittedEvents(Persisted(s, r), r.committed);
    var all := head + [SentPersisted(r.persistedMessages)] + tail;
    assert ReadyEvents(s, r) == all;
    assert forall i :: 0 <= i < |all| && all[i].SentPersisted? ==> i == |head|;
  }

  // When the persisted messages of a Ready go out, all its entries and its hard
  // state are on disk; every write of them came before.
  lemma PersistedBeforeSend(s: Store, since: nat, r: Ready, j: nat)
    requires InOrder(s) && ReadyOk(s, since, r)
    requires j < |ReadyEvents(s, r)| && ReadyEvents(s, r)[j].SentPersisted?
    ensures
      var disk := End(s, ReadyEvents(s, r)[..j]);
      && disk == Persisted(s, r)
      && (forall i :: 0 <= i < |r.entries| ==> Holds(disk, r.entries[i]))
      && (r.hard.Some? ==> disk.hard == r.hard.value)
  {
    SendPosition(s, r, j);
    StorageGood(s, since, r);
    Silent(s, Sent(r.messages));
    EndConcat(s, [Sent(r.messages)], StorageEvents(s, r));
    SnapshotGood(s, r.snapshot);
    forall i | 0 <= i < |r.entries| ensures Holds(Persisted(s, r), r.entries[i]) {
      AppendHolds(Installed(s, r.snapshot), r.entries, i);
    }
  }
}
