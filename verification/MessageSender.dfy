// Per-peer Raft message sender: a handle that numbers and posts messages, and a
// task that delivers them, running concurrently.
//
// Ordinary messages go through a bounded queue, heartbeats through a watch cell
// that keeps only the last value. Polling the queue, polling the cell and
// reading the cell are separate steps, so the handle may run in between.
//
// Source: src/consensus.rs
module MessageSender {
  import opened Common

  const QUEUE_CAPACITY: nat := 128

  datatype Message = Message(heartbeat: bool, body: nat)

  datatype Item = Item(index: nat, message: Message)

  // Where the sender stands in one turn of its loop.
  datatype Task = PollQueue | PollWatch | ReadWatch | Handle(item: Item) | Stopped

  datatype State = State(
    index: nat,              // number the next accepted message gets
    queue: seq<Item>,
    watch: Option<Item>,     // last heartbeat posted
    unseen: bool,            // posted since the sender last looked
    closed: bool,            // the handle has been dropped
    task: Task,
    prevIndex: nat,
    delivered: seq<Item>,
    // history
    handled: set<Item>,      // taken from queue or cell and decided upon
    skipped: set<Item>,      // decided not to be sent
    accepted: seq<Item>,     // accepted by the handle, in order
    overtaken: set<Item>)    // waiting in the queue while a newer heartbeat was read

  function Init(): State {
    State(0, [], None, false, false, PollQueue, 0, [], {}, {}, [], {})
  }

  // The handle posts a message; a full queue refuses it.
  function Accepts(s: State, m: Message): bool {
    !s.closed && (m.heartbeat || |s.queue| < QUEUE_CAPACITY)
  }

  function Send(s: State, m: Message): State {
    var item := Item(s.index, m);
    if !Accepts(s, m) then s
    else if m.heartbeat then
      s.(index := s.index + 1, watch := Some(item), unseen := true, accepted := s.accepted + [item])
    else
      s.(index := s.index + 1, queue := s.queue + [item], accepted := s.accepted + [item])
  }

  function Drop(s: State): State {
    s.(closed := true)
  }

  // Queued messages older than x.
  function Older(queue: seq<Item>, x: Item): set<Item> {
    set q | q in queue && q.index < x.index
  }

  // One step of the sender. The queue is polled first; the cell only if the queue
  // was empty at that moment; with nothing to do the poll starts over, or the
  // task stops once the handle is gone.
  function Turn(s: State): State {
    match s.task
    case PollQueue =>
      if s.queue != [] then s.(queue := s.queue[1..], task := Handle(s.queue[0]))
      else s.(task := PollWatch)
    case PollWatch =>
      if s.unseen && s.watch.Some? then s.(unseen := false, task := ReadWatch)
      else if s.closed && s.queue == [] then s.(task := Stopped)
      else s.(task := PollQueue)
    case ReadWatch =>
      if s.watch.None? then s.(task := PollQueue)
      else
        s.(unseen := false, task := Handle(s.watch.value), overtaken := s.overtaken + Older(s.queue, s.watch.value))
    case Handle(item) =>
      var t := s.(task := PollQueue, handled := s.handled + {item});
      if s.prevIndex <= item.index
      then t.(prevIndex := item.index, delivered := s.delivered + [item])
      else t.(skipped := s.skipped + {item})
    case Stopped => s
  }

  datatype Event = Post(message: Message) | Close | Tick

  function Apply(s: State, e: Event): State {
    match e
    case Post(m) => Send(s, m)
    case Close => Drop(s)
    case Tick => Turn(s)
  }

  function Run(events: seq<Event>): State {
    if events == [] then Init() else Apply(Run(events[..|events| - 1]), events[|events| - 1])
  }

  // ---------------------------------------------------------------------
  // What every step keeps

  ghost predicate Increasing(items: seq<Item>) {
    forall i, j :: 0 <= i < j < |items| ==> items[i].index < items[j].index
  }

  // x was accepted under its own number.
  ghost predicate Known(accepted: seq<Item>, x: Item) {
    x.index < |accepted| && accepted[x.index] == x
  }

  ghost predicate HistoryOk(accepted: seq<Item>, handled: set<Item>) {
    && (forall i :: 0 <= i < |accepted| ==> accepted[i].index == i)
    && forall x :: x in handled ==> Known(accepted, x)
  }

  ghost predicate QueueOk(accepted: seq<Item>, handled: set<Item>, queue: seq<Item>) {
    && Increasing(queue)
    && forall x :: x in queue ==> Known(accepted, x) && !x.message.heartbeat && x !in handled
  }

  // The heartbeat the sender has still to look at.
  ghost predicate WatchPending(s: State) {
    s.watch.Some? && (s.unseen || s.task.ReadWatch?)
  }

  ghost predicate WatchOk(s: State) {
    && (s.task.ReadWatch? || s.unseen ==> s.watch.Some?)
    && (s.watch.Some? ==> Known(s.accepted, s.watch.value) && s.watch.value.message.heartbeat)
    && (WatchPending(s) ==> s.watch.value !in s.handled && s.task != Handle(s.watch.value))
  }

  // The message in hand; ordinary ones leave the queue in order.
  ghost predicate TaskOk(s: State) {
    && (s.task.Handle? ==> Known(s.accepted, s.task.item) && s.task.item !in s.handled && s.task.item !in s.queue)
    && (s.task.Handle? && !s.task.item.message.heartbeat ==>
          forall q :: q in s.queue ==> s.task.item.index < q.index)
  }

  ghost predicate InOrder(handled: set<Item>, queue: seq<Item>) {
    forall x, q :: x in handled && !x.message.heartbeat && q in queue ==> x.index < q.index
  }

  ghost predicate Delivering(handled: set<Item>, skipped: set<Item>, delivered: seq<Item>, prevIndex: nat) {
    && Increasing(delivered)
    && (handled != {} <==> delivered != [])
    && prevIndex == (if delivered == [] then 0 else delivered[|delivered| - 1].index)
    && (forall x :: x in handled ==> x.index <= prevIndex)
    && (forall x :: x in handled <==> x in delivered || x in skipped)
    && (forall x :: x in skipped ==> x !in delivered && x.index < prevIndex)
  }

  // Messages accepted and not yet decided upon.
  ghost predicate Waiting(s: State, x: Item) {
    x in s.queue || (WatchPending(s) && s.watch.value == x) || s.task == Handle(x)
  }

  // The last accepted message is waiting or decided upon.
  ghost predicate LastKnown(s: State) {
    s.accepted != [] ==>
      var last := s.accepted[|s.accepted| - 1];
      Waiting(s, last) || last in s.handled
  }

  // A queued message is overtaken once the sender holds or has sent a newer one.
  ghost predicate Passed(delivered: seq<Item>, prevIndex: nat, task: Task, q: Item) {
    (delivered != [] && q.index < prevIndex) || (task.Handle? && q.index < task.item.index)
  }

  ghost predicate QueuePassed(s: State) {
    forall q :: q in s.queue ==> (q in s.overtaken <==> Passed(s.delivered, s.prevIndex, s.task, q))
  }

  // Skipped ordinary messages are those overtaken while they waited.
  ghost predicate Overtaking(s: State) {
    && (s.task.Handle? && !s.task.item.message.heartbeat ==>
          (s.task.item in s.overtaken <==> s.task.item.index < s.prevIndex))
    && (forall x :: x in s.overtaken ==>
          !x.message.heartbeat && (x in s.queue || s.task == Handle(x) || x in s.skipped))
    && (forall x :: x in s.skipped && !x.message.heartbeat ==> x in s.overtaken)
  }

  ghost predicate Invariant(s: State) {
    && s.index == |s.accepted|
    && HistoryOk(s.accepted, s.handled)
    && QueueOk(s.accepted, s.handled, s.queue)
    && WatchOk(s) && TaskOk(s)
    && InOrder(s.handled, s.queue)
    && Delivering(s.handled, s.skipped, s.delivered, s.prevIndex)
    && LastKnown(s)
    && QueuePassed(s) && Overtaking(s)
  }

  lemma HeartbeatKeeps(s: State, m: Message)
    requires Invariant(s) && Accepts(s, m) && m.heartbeat
    ensures Invariant(Send(s, m))
  {
    var t, item := Send(s, m), Item(s.index, m);
    assert t.accepted[|s.accepted|] == item;
    assert forall x :: Known(s.accepted, x) ==> Known(t.accepted, x);
  }

  lemma PostFacts(s: State, m: Message)
    requires Accepts(s, m) && !m.heartbeat && s.index == |s.accepted|
    ensures
      var t, item := Send(s, m), Item(s.index, m);
      && (forall x :: Known(s.accepted, x) ==> Known(t.accepted, x))
      && Known(t.accepted, item) && !Known(s.accepted, item)
      && (forall x :: x in t.queue <==> x in s.queue || x == item)
      && (forall x :: Known(s.accepted, x) ==> x.index < item.index)
  {
    var t, item := Send(s, m), Item(s.index, m);
    assert t.accepted[|s.accepted|] == item && t.queue[|s.queue|] == item;
  }

  lemma PostQueue(s: State, m: Message)
    requires Invariant(s) && Accepts(s, m) && !m.heartbeat
    ensures
      var t := Send(s, m);
      && t.index == |t.accepted| && HistoryOk(t.accepted, t.handled) && QueueOk(t.accepted, t.handled, t.queue)
      && WatchOk(t) && TaskOk(t) && InOrder(t.handled, t.queue)
  {
    PostFacts(s, m);
  }

  lemma PostPassed(s: State, m: Message)
    requires Invariant(s) && Accepts(s, m) && !m.heartbeat
    ensures LastKnown(Send(s, m)) && QueuePassed(Send(s, m)) && Overtaking(Send(s, m))
  {
    PostFacts(s, m);
    var t, item := Send(s, m), Item(s.index, m);
    assert item !in s.overtaken by {
      assert item !in s.queue && item !in s.skipped && s.task != Handle(item);
    }
    assert s.delivered != [] ==> s.delivered[|s.delivered| - 1] in s.handled;
  }

  lemma PopFacts(s: State)
    requires Increasing(s.queue) && s.queue != []
    ensures forall x :: x in s.queue <==> x in s.queue[1..] || x == s.queue[0]
    ensures s.queue[0] !in s.queue[1..] && Increasing(s.queue[1..])
    ensures forall x :: x in s.queue[1..] ==> s.queue[0].index < x.index
  {
    assert s.queue == [s.queue[0]] + s.queue[1..];
    assert forall j :: 0 <= j < |s.queue[1..]| ==> s.queue[1..][j] == s.queue[j + 1];
  }

  lemma PopQueue(s: State)
    requires Invariant(s) && s.task.PollQueue? && s.queue != []
    ensures
      var t := Turn(s);
      && QueueOk(t.accepted, t.handled, t.queue)
      && WatchOk(t) && TaskOk(t) && InOrder(t.handled, t.queue)
  {
    PopFacts(s);
  }

  lemma PopPassed(s: State)
    requires Invariant(s) && s.task.PollQueue? && s.queue != []
    ensures LastKnown(Turn(s)) && QueuePassed(Turn(s)) && Overtaking(Turn(s))
  {
    PopFacts(s);
  }

  lemma PollQueueKeeps(s: State)
    requires Invariant(s) && s.task.PollQueue? && s.queue == []
    ensures Invariant(Turn(s))
  {
  }

  lemma PollWatchKeeps(s: State)
    requires Invariant(s) && s.task.PollWatch?
    ensures Invariant(Turn(s))
  {
    if s.unseen {
    } else if s.closed && s.queue == [] {
    } else {
    }
  }

  lemma ReadKeeps(s: State)
    requires Invariant(s) && s.task.ReadWatch?
    ensures Invariant(Turn(s))
  {
  }

  lemma SentKeeps(s: State)
    requires Invariant(s) && s.task.Handle? && s.prevIndex <= s.task.item.index
    ensures Delivering(Turn(s).handled, Turn(s).skipped, Turn(s).delivered, Turn(s).prevIndex)
  {
    var t, item := Turn(s), s.task.item;
    assert t.delivered[|s.delivered|] == item;
    assert forall x :: x in t.delivered <==> x in s.delivered || x == item;
    assert s.delivered != [] ==> s.delivered[|s.delivered| - 1] in s.handled;
    assert s.delivered != [] ==> s.prevIndex < item.index;
  }

  lemma SkippedKeeps(s: State)
    requires Invariant(s) && s.task.Handle? && s.prevIndex > s.task.item.index
    ensures Delivering(Turn(s).handled, Turn(s).skipped, Turn(s).delivered, Turn(s).prevIndex)
  {
    var t, item := Turn(s), s.task.item;
    assert item !in s.delivered;
  }

  lemma HandleQueue(s: State)
    requires Invariant(s) && s.task.Handle?
    ensures
      var t := Turn(s);
      && HistoryOk(t.accepted, t.handled) && QueueOk(t.accepted, t.handled, t.queue) && InOrder(t.handled, t.queue)
  {
    HandledOne(s.accepted, s.handled, s.queue, s.task.item);
  }

  // An item that is not queued and precedes what is, if it is an ordinary one.
  lemma HandledOne(accepted: seq<Item>, handled: set<Item>, queue: seq<Item>, item: Item)
    requires HistoryOk(accepted, handled) && QueueOk(accepted, handled, queue) && InOrder(handled, queue)
    requires Known(accepted, item) && item !in queue
    requires !item.message.heartbeat ==> forall q :: q in queue ==> item.index < q.index
    ensures HistoryOk(accepted, handled + {item}) && QueueOk(accepted, handled + {item}, queue)
    ensures InOrder(handled + {item}, queue)
  {
  }

  lemma HandleWatch(s: State)
    requires s.task.Handle? && WatchOk(s)
    ensures WatchOk(Turn(s)) && TaskOk(Turn(s))
  {
  }

  lemma HandleLast(s: State)
    requires s.task.Handle? && LastKnown(s)
    ensures LastKnown(Turn(s))
  {
    if s.accepted != [] {
      var last := s.accepted[|s.accepted| - 1];
      assert Waiting(s, last) || last in s.handled;
      assert Waiting(Turn(s), last) || last in Turn(s).handled;
    }
  }

  lemma HandlePassed(s: State)
    requires Invariant(s) && s.task.Handle?
    ensures QueuePassed(Turn(s))
  {
    var t, item := Turn(s), s.task.item;
    assert t.queue == s.queue && t.overtaken == s.overtaken && t.task.PollQueue? && t.delivered != [];
    assert t.prevIndex == if s.prevIndex <= item.index then item.index else s.prevIndex;
    assert s.prevIndex > item.index ==> s.delivered != [];
  }

  lemma HandleOvertaking(s: State)
    requires Invariant(s) && s.task.Handle?
    ensures Overtaking(Turn(s))
  {
    var t, item := Turn(s), s.task.item;
    assert t.queue == s.queue && t.overtaken == s.overtaken && t.task.PollQueue?;
    assert t.skipped == if s.prevIndex <= item.index then s.skipped else s.skipped + {item};
    forall x | x in t.overtaken
      ensures !x.message.heartbeat && (x in t.queue || x in t.skipped)
    {
      assert x in s.queue || x == item || x in s.skipped;
    }
  }

  lemma StepKeeps(s: State, e: Event)
    requires Invariant(s)
    ensures Invariant(Apply(s, e))
  {
    match e
    case Post(m) =>
      if Accepts(s, m) {
        if m.heartbeat { HeartbeatKeeps(s, m); } else { PostQueue(s, m); PostPassed(s, m); }
      }
    case Close =>
    case Tick => TurnKeeps(s);
  }

  lemma TurnKeeps(s: State)
    requires Invariant(s)
    ensures Invariant(Turn(s))
  {
    match s.task
    case PollQueue => if s.queue != [] { PopQueue(s); PopPassed(s); } else { PollQueueKeeps(s); }
    case PollWatch => PollWatchKeeps(s);
    case ReadWatch => ReadKeeps(s);
    case Handle(item) =>
      if s.prevIndex <= item.index { SentKeeps(s); } else { SkippedKeeps(s); }
      HandleQueue(s);
      HandleWatch(s);
      HandleLast(s);
      HandlePassed(s);
      HandleOvertaking(s);
    case Stopped =>
  }

  lemma {:induction false} RunKeeps(events: seq<Event>)
    ensures Invariant(Run(events))
    decreases |events|
  {
    if events != [] {
      RunKeeps(events[..|events| - 1]);
      StepKeeps(Run(events[..|events| - 1]), events[|events| - 1]);
    }
  }

  // ---------------------------------------------------------------------
  // Fate of ordinary messages

  // Ordinary messages are decided upon in order.
  ghost predicate TaskInOrder(s: State) {
    s.task.Handle? && !s.task.item.message.heartbeat ==>
      forall x :: x in s.handled && !x.message.heartbeat ==> x.index < s.task.item.index
  }

  // None is lost on the way.
  ghost predicate Accounted(s: State) {
    forall i :: 0 <= i < |s.accepted| && !s.accepted[i].message.heartbeat ==>
      s.accepted[i] in s.queue || s.task == Handle(s.accepted[i]) || s.accepted[i] in s.handled
  }

  ghost predicate NewerHeartbeatSent(delivered: seq<Item>, x: Item) {
    exists h :: h in delivered && h.message.heartbeat && h.index > x.index
  }

  ghost predicate SkippedForHeartbeat(s: State) {
    forall x :: x in s.skipped && !x.message.heartbeat ==> NewerHeartbeatSent(s.delivered, x)
  }

  ghost predicate Fate(s: State) {
    TaskInOrder(s) && Accounted(s) && SkippedForHeartbeat(s)
  }

  lemma PostFate(s: State, m: Message)
    requires Invariant(s) && Fate(s)
    ensures Fate(Send(s, m))
  {
    if Accepts(s, m) {
      var t, item := Send(s, m), Item(s.index, m);
      assert t.accepted[|s.accepted|] == item;
      if !m.heartbeat {
        PostFacts(s, m);
      }
      forall i | 0 <= i < |t.accepted| && !t.accepted[i].message.heartbeat
        ensures t.accepted[i] in t.queue || t.task == Handle(t.accepted[i]) || t.accepted[i] in t.handled
      {
        if i < |s.accepted| { assert t.accepted[i] == s.accepted[i]; }
      }
    }
  }

  lemma HandleFate(s: State)
    requires Invariant(s) && Fate(s) && s.task.Handle?
    ensures Fate(Turn(s))
  {
    var t, item := Turn(s), s.task.item;
    assert t.queue == s.queue && t.accepted == s.accepted && t.handled == s.handled + {item} && t.task.PollQueue?;
    forall x | x in t.skipped && !x.message.heartbeat
      ensures NewerHeartbeatSent(t.delivered, x)
    {
      SkippedIsNewer(s, x);
    }
  }

  lemma SkippedIsNewer(s: State, x: Item)
    requires Invariant(s) && Fate(s) && s.task.Handle? && x in Turn(s).skipped && !x.message.heartbeat
    ensures NewerHeartbeatSent(Turn(s).delivered, x)
  {
    var t, item := Turn(s), s.task.item;
    if x == item && s.prevIndex > item.index {
      var last := s.delivered[|s.delivered| - 1];
      assert last in s.handled && last in t.delivered;
    } else {
      assert x in s.skipped;
      var h :| h in s.delivered && h.message.heartbeat && h.index > x.index;
      assert h in t.delivered;
    }
  }

  lemma PollFate(s: State)
    requires Invariant(s) && Fate(s) && s.task.PollQueue?
    ensures Fate(Turn(s))
  {
    if s.queue != [] { PopFacts(s); }
  }

  lemma ReadFate(s: State)
    requires Invariant(s) && Fate(s) && s.task.ReadWatch?
    ensures Fate(Turn(s))
  {
  }

  lemma TurnFate(s: State)
    requires Invariant(s) && Fate(s)
    ensures Fate(Turn(s))
  {
    match s.task
    case PollQueue => PollFate(s);
    case PollWatch =>
    case ReadWatch => ReadFate(s);
    case Handle(_) => HandleFate(s);
    case Stopped =>
  }

  lemma {:induction false} RunFate(events: seq<Event>)
    ensures Fate(Run(events))
    decreases |events|
  {
    if events != [] {
      var before, e := events[..|events| - 1], events[|events| - 1];
      RunFate(before);
      RunKeeps(before);
      match e
      case Post(m) => PostFate(Run(before), m);
      case Close =>
      case Tick => TurnFate(Run(before));
    }
  }

  // ---------------------------------------------------------------------
  // Results over every interleaving

  // Messages are attempted in strictly increasing order of their numbers, so
  // none twice and none out of order, and only accepted ones.
  lemma DeliveredInOrder(events: seq<Event>)
    ensures Increasing(Run(events).delivered)
    ensures forall x :: x in Run(events).delivered ==> Known(Run(events).accepted, x)
  {
    RunKeeps(events);
  }

  // Nothing is queued, in the cell or in hand.
  ghost predicate Drained(s: State) {
    s.queue == [] && !s.unseen && !s.task.ReadWatch? && !s.task.Handle?
  }

  // Once drained, the last message sent is the last one accepted.
  lemma DrainedSendsLast(events: seq<Event>)
    requires Drained(Run(events)) && Run(events).accepted != []
    ensures
      var s := Run(events);
      s.delivered != [] && s.delivered[|s.delivered| - 1] == s.accepted[|s.accepted| - 1]
  {
    RunKeeps(events);
    var s := Run(events);
    var last := s.accepted[|s.accepted| - 1];
    assert last in s.handled;
    assert s.delivered[|s.delivered| - 1] in s.handled;
  }

  // A task that has stopped is drained.
  lemma {:induction false} StoppedIsDrained(events: seq<Event>)
    ensures Run(events).task.Stopped? ==> Drained(Run(events)) && Run(events).closed
    decreases |events|
  {
    if events != [] {
      StoppedIsDrained(events[..|events| - 1]);
      RunKeeps(events[..|events| - 1]);
      StoppedStep(Run(events[..|events| - 1]), events[|events| - 1]);
    }
  }

  lemma StoppedStep(s: State, e: Event)
    requires WatchOk(s) && (s.task.Stopped? ==> Drained(s) && s.closed)
    ensures Apply(s, e).task.Stopped? ==> Drained(Apply(s, e)) && Apply(s, e).closed
  {
  }

  // A message that is not a heartbeat is skipped only if a heartbeat of larger
  // number has been sent; and once drained, every accepted one has been sent
  // except exactly those that waited in the queue while a newer heartbeat was
  // read from the cell.
  lemma OrdinaryMessages(events: seq<Event>, x: Item)
    requires x in Run(events).accepted && !x.message.heartbeat
    ensures
      var s := Run(events);
      && (x in s.skipped ==> NewerHeartbeatSent(s.delivered, x))
      && (Drained(s) ==> (x in s.delivered <==> x !in s.overtaken) && (x in s.skipped <==> x in s.overtaken))
  {
    RunKeeps(events);
    RunFate(events);
    var s := Run(events);
    var i :| 0 <= i < |s.accepted| && s.accepted[i] == x;
  }

  // The select and the read of the cell as one step: the handle posts nothing
  // between finding the queue empty and reading the cell.
  predicate Atomic(events: seq<Event>) {
    if events == [] then true else
    var before := events[..|events| - 1];
    && Atomic(before)
    && (events[|events| - 1].Post? ==> !Run(before).task.PollWatch? && !Run(before).task.ReadWatch?)
  }

  lemma {:induction false} AtomicOvertakesNothing(events: seq<Event>)
    requires Atomic(events)
    ensures
      var s := Run(events);
      s.overtaken == {} && (s.task.PollWatch? || s.task.ReadWatch? ==> s.queue == [])
    decreases |events|
  {
    if events != [] {
      AtomicOvertakesNothing(events[..|events| - 1]);
    }
  }

  // Then no ordinary message is ever skipped.
  lemma AtomicSkipsNothing(events: seq<Event>, x: Item)
    requires Atomic(events) && x in Run(events).skipped
    ensures x.message.heartbeat
  {
    RunKeeps(events);
    AtomicOvertakesNothing(events);
  }

  // Without that, one can be: queue found empty, a heartbeat posted and noticed,
  // an ordinary message and a newer heartbeat posted, the cell read.
  lemma SkipHappens(beat: Message, entry: Message)
    requires beat.heartbeat && !entry.heartbeat
    ensures
      var events := [Tick, Post(beat), Tick, Post(entry), Post(beat), Tick, Tick, Tick, Tick];
      Run(events).skipped == {Item(1, entry)} && Run(events).delivered == [Item(2, beat)]
  {
    var events := [Tick, Post(beat), Tick, Post(entry), Post(beat), Tick, Tick, Tick, Tick];
    var half := [Tick, Post(beat), Tick, Post(entry), Post(beat)];
    RunFive(half);
    var s6 := Apply(Run(half), Tick);
    assert s6.task == Handle(Item(2, beat)) && s6.queue == [Item(1, entry)] && s6.skipped == {};
    var s7 := Apply(s6, Tick);
    assert s7.delivered == [Item(2, beat)] && s7.prevIndex == 2;
    RunSnoc(half, Tick);
    RunSnoc(half + [Tick], Tick);
    RunSnoc(half + [Tick] + [Tick], Tick);
    RunSnoc(half + [Tick] + [Tick] + [Tick], Tick);
    assert events == half + [Tick] + [Tick] + [Tick] + [Tick];
  }

  lemma RunFive(events: seq<Event>)
    requires |events| == 5
    ensures Run(events) == Apply(Apply(Apply(Apply(Apply(Init(), events[0]), events[1]), events[2]), events[3]),
                                 events[4])
  {
    forall i | 0 <= i < 5
      ensures Run(events[..i + 1]) == Apply(Run(events[..i]), events[i])
    {
      assert events[..i] + [events[i]] == events[..i + 1];
      RunSnoc(events[..i], events[i]);
    }
    assert events[..5] == events;
    assert Run(events[..0]) == Init();
    assert Run(events[..1]) == Apply(Run(events[..0]), events[0]);
    assert Run(events[..2]) == Apply(Run(events[..1]), events[1]);
    assert Run(events[..3]) == Apply(Run(events[..2]), events[2]);
    assert Run(events[..4]) == Apply(Run(events[..3]), events[3]);
    assert Run(events[..5]) == Apply(Run(events[..4]), events[4]);
  }

  lemma RunSnoc(events: seq<Event>, e: Event)
    ensures Run(events + [e]) == Apply(Run(events), e)
  {
    assert (events + [e])[..|events|] == events;
  }

  // ---------------------------------------------------------------------
  // What is accepted, and that it goes out

  // The handle takes a heartbeat as long as the sender runs, any other message as
  // long as fewer than 128 wait, gives it the next number and puts it where the
  // task looks.
  lemma PostAccepts(events: seq<Event>, m: Message)
    ensures
      var s, t := Run(events), Run(events + [Post(m)]);
      if !s.closed && (m.heartbeat || |s.queue| < 128)
      then
        && t.accepted == s.accepted + [Item(|s.accepted|, m)]
        && (if m.heartbeat then t.watch == Some(Item(|s.accepted|, m)) && t.unseen && t.queue == s.queue
            else t.queue == s.queue + [Item(|s.accepted|, m)] && t.watch == s.watch && t.unseen == s.unseen)
        && t.task == s.task && t.delivered == s.delivered
      else t == s
  {
    RunKeeps(events);
    RunSnoc(events, Post(m));
  }

  function Ticks(n: nat): (ticks: seq<Event>)
    ensures |ticks| == n && forall i :: 0 <= i < n ==> ticks[i] == Tick
  {
    seq(n, _ => Tick)
  }

  // How many turns a task that is left alone needs at most.
  function Turns(s: State): nat {
    4 * |s.queue| + (if s.unseen then 4 else 0) +
    match s.task
    case PollQueue => 1
    case PollWatch => if s.queue == [] then 0 else 2
    case ReadWatch => 3
    case Handle(_) => 2
    case Stopped => 0
  }

  lemma TurnProgresses(s: State)
    requires WatchOk(s) && !Drained(s) && !s.task.Stopped?
    ensures Turns(Turn(s)) < Turns(s) && Turn(s).accepted == s.accepted && Turn(s).closed == s.closed
  {
  }

  // Left alone, the sender empties queue and cell.
  lemma {:induction false} Drains(events: seq<Event>) returns (n: nat)
    ensures Drained(Run(events + Ticks(n))) && Run(events + Ticks(n)).accepted == Run(events).accepted
    ensures Run(events + Ticks(n)).closed == Run(events).closed
    decreases Turns(Run(events))
  {
    StoppedIsDrained(events);
    if Drained(Run(events)) {
      n := 0;
      assert events + Ticks(0) == events;
    } else {
      RunKeeps(events);
      RunSnoc(events, Tick);
      TurnProgresses(Run(events));
      var rest := Drains(events + [Tick]);
      n := rest + 1;
      assert events + Ticks(n) == events + [Tick] + Ticks(rest);
    }
  }

  // So after every run, left alone, it sends the last message accepted; and once
  // the handle is gone it stops.
  lemma LastIsSent(events: seq<Event>) returns (n: nat)
    requires Run(events).accepted != []
    ensures
      var s := Run(events + Ticks(n));
      s.delivered != [] && s.delivered[|s.delivered| - 1] == Run(events).accepted[|Run(events).accepted| - 1]
  {
    n := Drains(events);
    DrainedSendsLast(events + Ticks(n));
  }

  lemma Stops(events: seq<Event>) returns (n: nat)
    requires Run(events).closed
    ensures Run(events + Ticks(n)).task.Stopped?
  {
    var k := Drains(events);
    var all := events + Ticks(k);
    RunSnoc(all, Tick);
    RunSnoc(all + [Tick], Tick);
    n := if Run(all).task.Stopped? then k else if Run(all).task.PollWatch? then k + 1 else k + 2;
    assert events + Ticks(k + 1) == all + [Tick] && events + Ticks(k + 2) == all + [Tick] + [Tick];
  }
}
