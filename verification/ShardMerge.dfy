// The segments of one shard merged into one stream. Unlike shards, segments may
// hold copies of the same point; copies have to agree.
//
// Source: lib/shard/src/exact_shard_stream.rs
module ShardMerge {
  import opened Common
  import opened RankOrder
  import opened KWayMerge
  import K = KWayStream

  type Lists = seq<seq<Scored>>

  // The version a segment has of a point.
  type Versions = (nat, PointId) -> nat

  // ---------------------------------------------------------------------
  // The merge on lists

  ghost predicate AllRanked(lists: Lists) {
    forall s :: 0 <= s < |lists| ==> Ranked(lists[s])
  }

  ghost predicate Counted(lists: Lists, counts: seq<nat>) {
    |counts| == |lists| && forall s :: 0 <= s < |lists| ==> counts[s] <= |lists[s]|
  }

  ghost predicate Out(lists: Lists, counts: seq<nat>, x: Scored)
    requires Counted(lists, counts)
  {
    exists s, i :: 0 <= s < |lists| && 0 <= i < counts[s] && lists[s][i] == x
  }

  // What went out is ranked, is what was counted, and precedes everything left.
  ghost predicate Merges(lists: Lists, counts: seq<nat>, emitted: seq<Scored>)
    requires Counted(lists, counts)
  {
    && Ranked(emitted)
    && (forall x :: x in emitted <==> Out(lists, counts, x))
    && forall e, s, i :: e in emitted && 0 <= s < |lists| && counts[s] <= i < |lists[s]| ==> Precedes(e, lists[s][i])
  }

  // Lists whose next point is this one.
  ghost predicate Offers(lists: Lists, counts: seq<nat>, s: nat, x: Scored)
    requires Counted(lists, counts) && s < |lists|
  {
    counts[s] < |lists[s]| && lists[s][counts[s]] == x
  }

  // Every list that offers the point moves past it.
  ghost predicate Advances(lists: Lists, before: seq<nat>, after: seq<nat>, x: Scored)
    requires Counted(lists, before)
  {
    |after| == |before| &&
    forall s :: 0 <= s < |lists| ==> after[s] == before[s] + if Offers(lists, before, s, x) then 1 else 0
  }

  ghost predicate IsFirst(lists: Lists, counts: seq<nat>, x: Scored)
    requires Counted(lists, counts)
  {
    && (exists s :: 0 <= s < |lists| && Offers(lists, counts, s, x))
    && forall s :: 0 <= s < |lists| && counts[s] < |lists[s]| ==> !Precedes(lists[s][counts[s]], x)
  }

  // Whatever is left after the first point has gone out comes later.
  lemma FirstPrecedes(lists: Lists, before: seq<nat>, after: seq<nat>, x: Scored, s: nat, i: nat)
    requires AllRanked(lists) && Counted(lists, before) && IsFirst(lists, before, x)
      && Advances(lists, before, after, x)
    requires s < |lists| && after[s] <= i < |lists[s]|
    ensures Precedes(x, lists[s][i])
  {
    var head := lists[s][before[s]];
    assert !Precedes(head, x);
    assert before[s] < i ==> Precedes(head, lists[s][i]);
  }

  lemma OutGrows(lists: Lists, before: seq<nat>, after: seq<nat>, x: Scored, y: Scored)
    requires Counted(lists, before) && IsFirst(lists, before, x) && Advances(lists, before, after, x)
    ensures Counted(lists, after) && (Out(lists, after, y) <==> Out(lists, before, y) || y == x)
  {
    if Out(lists, before, y) {
      var s, i :| 0 <= s < |lists| && 0 <= i < before[s] && lists[s][i] == y;
      assert i < after[s];
    }
    if y == x {
      var s :| 0 <= s < |lists| && Offers(lists, before, s, x);
      assert before[s] < after[s] && lists[s][before[s]] == y;
    }
    if Out(lists, after, y) {
      var s, i :| 0 <= s < |lists| && 0 <= i < after[s] && lists[s][i] == y;
      assert i < before[s] || Offers(lists, before, s, x);
    }
  }

  lemma MergeOne(lists: Lists, before: seq<nat>, after: seq<nat>, emitted: seq<Scored>, x: Scored)
    requires AllRanked(lists) && Counted(lists, before) && Merges(lists, before, emitted)
    requires IsFirst(lists, before, x) && Advances(lists, before, after, x)
    ensures Counted(lists, after) && Merges(lists, after, emitted + [x])
  {
    var longer := emitted + [x];
    assert forall y :: y in longer <==> y in emitted || y == x;
    forall y ensures y in longer <==> Out(lists, after, y) { OutGrows(lists, before, after, x, y); }
    var s :| 0 <= s < |lists| && Offers(lists, before, s, x);
    forall i | 0 <= i < |emitted| ensures Precedes(emitted[i], x) {
      assert emitted[i] in emitted && Precedes(emitted[i], lists[s][before[s]]);
    }
    forall e, t, i | e in longer && 0 <= t < |lists| && after[t] <= i < |lists[t]| ensures Precedes(e, lists[t][i]) {
      if e == x { FirstPrecedes(lists, before, after, x, t, i); } else { assert before[t] <= i; }
    }
  }

  // Copies of the same point have the same score and the same version.
  ghost predicate Agree(lists: Lists, versions: Versions) {
    forall s, i, t, j ::
      0 <= s < |lists| && 0 <= t < |lists| && 0 <= i < |lists[s]| && 0 <= j < |lists[t]| ==>
        lists[s][i].id == lists[t][j].id ==>
          lists[s][i] == lists[t][j] && versions(s, lists[s][i].id) == versions(t, lists[t][j].id)
  }

  // Equal points that went out had equal versions.
  ghost predicate SameVersions(lists: Lists, counts: seq<nat>, versions: Versions)
    requires Counted(lists, counts)
  {
    forall s, i, t, j ::
      0 <= s < |lists| && 0 <= t < |lists| && 0 <= i < counts[s] && 0 <= j < counts[t] ==>
        lists[s][i] == lists[t][j] ==> versions(s, lists[s][i].id) == versions(t, lists[t][j].id)
  }

  ghost predicate OneVersion(lists: Lists, counts: seq<nat>, versions: Versions, x: Scored, version: nat)
    requires Counted(lists, counts)
  {
    forall s :: 0 <= s < |lists| && Offers(lists, counts, s, x) ==> versions(s, x.id) == version
  }

  lemma VersionsStaySame(lists: Lists, before: seq<nat>, after: seq<nat>, emitted: seq<Scored>, x: Scored,
                         versions: Versions, version: nat)
    requires Counted(lists, before) && Merges(lists, before, emitted) && SameVersions(lists, before, versions)
    requires Advances(lists, before, after, x) && OneVersion(lists, before, versions, x, version)
      && Counted(lists, after)
    ensures SameVersions(lists, after, versions)
  {
    forall s, i, t, j | 0 <= s < |lists| && 0 <= t < |lists| && 0 <= i < after[s] && 0 <= j < after[t]
                        && lists[s][i] == lists[t][j]
      ensures versions(s, lists[s][i].id) == versions(t, lists[t][j].id)
    {
      OldOrNew(lists, before, after, emitted, x, s, i);
      OldOrNew(lists, before, after, emitted, x, t, j);
    }
  }

  // A point that is out now was out before, or is the one that was offered.
  lemma OldOrNew(lists: Lists, before: seq<nat>, after: seq<nat>, emitted: seq<Scored>, x: Scored, s: nat, i: nat)
    requires Counted(lists, before) && Merges(lists, before, emitted) && Advances(lists, before, after, x)
    requires Counted(lists, after) && s < |lists| && i < after[s]
    ensures i < before[s] ==> lists[s][i] in emitted && (x !in emitted ==> lists[s][i] != x)
    ensures i >= before[s] ==> Offers(lists, before, s, x) && lists[s][i] == x && x !in emitted
  {
    if i < before[s] {
      assert Out(lists, before, lists[s][i]);
    } else {
      assert Offers(lists, before, s, x);
      assert x in emitted ==> Precedes(x, lists[s][before[s]]);
    }
  }

  ghost predicate DistinctIds(xs: seq<Scored>) {
    forall i, j :: 0 <= i < j < |xs| ==> xs[i].id != xs[j].id
  }

  // A merge that reached its end without a conflict shows that copies agree.
  lemma EndAgrees(lists: Lists, counts: seq<nat>, emitted: seq<Scored>, versions: Versions)
    requires Counted(lists, counts) && Merges(lists, counts, emitted) && SameVersions(lists, counts, versions)
    requires DistinctIds(emitted) && forall s :: 0 <= s < |lists| ==> counts[s] == |lists[s]|
    ensures Agree(lists, versions)
  {
    forall s, i, t, j | 0 <= s < |lists| && 0 <= t < |lists| && 0 <= i < |lists[s]| && 0 <= j < |lists[t]|
                        && lists[s][i].id == lists[t][j].id
      ensures lists[s][i] == lists[t][j]
    {
      assert Out(lists, counts, lists[s][i]) && Out(lists, counts, lists[t][j]);
      var a :| 0 <= a < |emitted| && emitted[a] == lists[s][i];
      var b :| 0 <= b < |emitted| && emitted[b] == lists[t][j];
    }
  }

  // If copies agree there is no conflict.
  lemma AgreeingOffer(lists: Lists, counts: seq<nat>, emitted: seq<Scored>, versions: Versions, x: Scored, b: nat)
    requires Counted(lists, counts) && Merges(lists, counts, emitted) && Agree(lists, versions)
    requires b < |lists| && Offers(lists, counts, b, x)
    ensures OneVersion(lists, counts, versions, x, versions(b, x.id))
    ensures forall e :: e in emitted ==> e.id != x.id
  {
    forall e | e in emitted ensures e.id != x.id {
      assert Out(lists, counts, e);
      var s, i :| 0 <= s < |lists| && 0 <= i < counts[s] && lists[s][i] == e;
      assert Precedes(e, lists[b][counts[b]]);
    }
  }

  // ---------------------------------------------------------------------
  // One segment source

  // The source stands at a position of its list: what is buffered comes next,
  // and its replies go on from there.
  ghost predicate At(source: ScoreSource, previous: Option<Scored>, pos: nat, list: seq<Scored>, size: nat) {
    var end := pos + |source.buffer|;
    && end <= |list| && source.buffer == list[pos..end]
    && previous == (if pos == 0 then None else Some(list[pos - 1]))
    && (if source.ended then end == |list| else HonestScores(source.replies, end, list, size))
  }

  ghost predicate Within(source: ScoreSource, pool: set<Scored>) {
    && (forall p :: p in source.buffer ==> p in pool)
    && forall i, p ::
         0 <= i < |source.replies| && source.replies[i].Ok? && p in source.replies[i].value.points ==> p in pool
  }

  // A batch follows on from the point before it.
  ghost predicate InOrder(previous: Option<Scored>, points: seq<Scored>) {
    && (previous.Some? && points != [] ==> !Precedes(points[0], previous.value))
    && forall i :: 0 < i < |points| ==> !Precedes(points[i], points[i - 1])
  }

  method Validate(previous: Option<Scored>, points: seq<Scored>) returns (ordered: bool)
    ensures ordered <==> InOrder(previous, points)
  {
    var last := previous;
    for i := 0 to |points|
      invariant last == if i == 0 then previous else Some(points[i - 1])
      invariant i > 0 && previous.Some? ==> !Precedes(points[0], previous.value)
      invariant forall j :: 0 < j < i ==> !Precedes(points[j], points[j - 1])
    {
      if last.Some? && Precedes(points[i], last.value) { return false; }
      last := Some(points[i]);
    }
    ordered := true;
  }

  lemma RankedInOrder(previous: Option<Scored>, pos: nat, points: seq<Scored>, list: seq<Scored>)
    requires Ranked(list) && pos + |points| <= |list| && points == list[pos..pos + |points|]
    requires previous == if pos == 0 then None else Some(list[pos - 1])
    ensures InOrder(previous, points)
  {
    if pos > 0 && points != [] { assert Precedes(list[pos - 1], list[pos]); }
    forall i | 0 < i < |points| ensures !Precedes(points[i], points[i - 1]) {
      assert Precedes(list[pos + i - 1], list[pos + i]);
    }
  }

  // Reads replies until there is something to hand out or the source has ended.
  method Fill(source: ScoreSource, previous: Option<Scored>, ghost pos: nat, ghost list: seq<Scored>, ghost size: nat,
              ghost pool: set<Scored>, ghost given: seq<Result<ScoreBatch, Error>>, ghost taken: seq<Scored>)
      returns (r: Result<ScoreSource, Error>)
    ensures r.Ok? ==> r.value.buffer != [] || r.value.ended
    ensures r.Ok? && K.Told(given, source, taken + source.buffer) ==> K.Told(given, r.value, taken + r.value.buffer)
    ensures r.Ok? && Within(source, pool) ==> Within(r.value, pool)
    ensures At(source, previous, pos, list, size) && Ranked(list) ==> r.Ok? && At(r.value, previous, pos, list, size)
    decreases |source.replies|
  {
    if source.buffer != [] || source.ended { return Ok(source); }
    if source.replies == [] { return Err(Producer); }
    if source.replies[0].Err? { return Err(source.replies[0].error); }
    var batch := source.replies[0].value;
    var ordered := Validate(previous, batch.points);
    if At(source, previous, pos, list, size) && Ranked(list) { RankedInOrder(previous, pos, batch.points, list); }
    if !ordered { return Err(Validation); }
    var next := ScoreSource(source.replies[1..], batch.points, batch.exhausted);
    assert forall i :: 0 <= i < |next.replies| ==> next.replies[i] == source.replies[i + 1];
    if K.Told(given, source, taken + source.buffer) {
      assert taken + source.buffer == taken;
      K.ToldRead(given, source, taken);
    }
    r := Fill(next, previous, pos, list, size, pool, given, taken);
  }

  datatype Popped = Popped(head: Option<Scored>, source: ScoreSource, previous: Option<Scored>)

  // The next point of a source, if there is one.
  method Pop(source: ScoreSource, previous: Option<Scored>, ghost pos: nat, ghost list: seq<Scored>, ghost size: nat,
             ghost pool: set<Scored>, ghost given: seq<Result<ScoreBatch, Error>>, ghost taken: seq<Scored>)
      returns (r: Result<Popped, Error>)
    ensures r.Ok? && K.Told(given, source, taken + source.buffer) ==> Tracks(given, r.value, taken + Waiting(r.value))
    ensures r.Ok? && Within(source, pool) ==>
      Within(r.value.source, pool) && (r.value.head.Some? ==> r.value.head.value in pool)
    ensures At(source, previous, pos, list, size) && Ranked(list) ==> r.Ok? && Stands(r.value, pos, list, size)
  {
    var filled := Fill(source, previous, pos, list, size, pool, given, taken);
    if filled.Err? { return Err(filled.error); }
    var now := filled.value;
    if now.buffer == [] {
      assert taken + now.buffer == taken == taken + [] + now.buffer;
      return Ok(Popped(None, now, previous));
    }
    var head := now.buffer[0];
    assert head in now.buffer;
    assert forall p :: p in now.buffer[1..] ==> p in now.buffer;
    assert taken + [head] + now.buffer[1..] == taken + now.buffer;
    r := Ok(Popped(Some(head), now.(buffer := now.buffer[1..]), Some(head)));
  }

  ghost function Waiting(p: Popped): seq<Scored> {
    if p.head.Some? then [p.head.value] else []
  }

  // What was taken from a source, up to the head that waits, and what is buffered is
  // what its replies told. Without a head all of it was taken and it told its end.
  ghost predicate Tracks(given: seq<Result<ScoreBatch, Error>>, slot: Popped, taken: seq<Scored>) {
    && K.Told(given, slot.source, taken + slot.source.buffer)
    && |Waiting(slot)| <= |taken| && taken == OutOf(slot, taken) + Waiting(slot)
    && (slot.head.None? ==> slot.source.ended && slot.source.buffer == [])
  }

  ghost function OutOf(slot: Popped, taken: seq<Scored>): seq<Scored>
    requires |Waiting(slot)| <= |taken|
  {
    taken[..|taken| - |Waiting(slot)|]
  }

  ghost predicate AllTrack(given: seq<seq<Result<ScoreBatch, Error>>>, slots: seq<Popped>, taken: Lists) {
    |given| == |slots| == |taken| && forall s :: 0 <= s < |slots| ==> TrackAt(given, slots, taken, s)
  }

  ghost predicate TrackAt(given: seq<seq<Result<ScoreBatch, Error>>>, slots: seq<Popped>, taken: Lists, s: nat)
    requires s < |given| && s < |slots| && s < |taken|
  {
    Tracks(given[s], slots[s], taken[s])
  }

  // What went out is everything taken that does not wait.
  ghost predicate AllOut(given: seq<seq<Result<ScoreBatch, Error>>>, slots: seq<Popped>, taken: Lists,
                         emitted: seq<Scored>)
    requires AllTrack(given, slots, taken)
  {
    forall x :: x in emitted <==> exists s :: 0 <= s < |slots| && IsOut(given, slots, taken, s, x)
  }

  ghost predicate IsOut(given: seq<seq<Result<ScoreBatch, Error>>>, slots: seq<Popped>, taken: Lists, s: nat, x: Scored)
    requires AllTrack(given, slots, taken) && s < |slots|
  {
    assert TrackAt(given, slots, taken, s);
    x in OutOf(slots[s], taken[s])
  }

  // A loaded source: its head is the point at this position, or it is at its end.
  ghost predicate Stands(p: Popped, pos: nat, list: seq<Scored>, size: nat) {
    && pos <= |list|
    && if pos < |list| then p.head == Some(list[pos]) && At(p.source, p.previous, pos + 1, list, size)
       else p.head.None?
  }

  // ---------------------------------------------------------------------
  // The merge

  ghost predicate AllWithin(slots: seq<Popped>, pool: set<Scored>) {
    forall s :: 0 <= s < |slots| ==>
      Within(slots[s].source, pool) && (slots[s].head.Some? ==> slots[s].head.value in pool)
  }

  ghost predicate AllStand(slots: seq<Popped>, lists: Lists, counts: seq<nat>, size: nat) {
    |slots| == |lists| == |counts| && forall s :: 0 <= s < |lists| ==> Stands(slots[s], counts[s], lists[s], size)
  }

  lemma StandingIsCounted(slots: seq<Popped>, lists: Lists, counts: seq<nat>, size: nat)
    requires AllStand(slots, lists, counts, size)
    ensures Counted(lists, counts)
    ensures forall s, x :: 0 <= s < |lists| ==> (slots[s].head == Some(x) <==> Offers(lists, counts, s, x))
  {
    forall s | 0 <= s < |lists| ensures counts[s] <= |lists[s]| { assert Stands(slots[s], counts[s], lists[s], size); }
    forall s, x | 0 <= s < |lists| ensures slots[s].head == Some(x) <==> Offers(lists, counts, s, x) {
      assert Stands(slots[s], counts[s], lists[s], size);
    }
  }

  function Heads(slots: seq<Popped>): (heads: seq<Option<Scored>>)
    ensures |heads| == |slots| && forall s :: 0 <= s < |slots| ==> heads[s] == slots[s].head
  {
    seq(|slots|, s requires 0 <= s < |slots| => slots[s].head)
  }

  // Whether all copies of the point that wait have this version.
  method SameVersion(slots: seq<Popped>, versions: Versions, x: Scored, version: nat) returns (same: bool)
    ensures same <==> forall s :: 0 <= s < |slots| && slots[s].head == Some(x) ==> versions(s, x.id) == version
  {
    for s := 0 to |slots|
      invariant forall t :: 0 <= t < s && slots[t].head == Some(x) ==> versions(t, x.id) == version
    {
      if slots[s].head == Some(x) && versions(s, x.id) != version { return false; }
    }
    same := true;
  }

  // A source whose head is the point hands it out.
  ghost predicate Moves(before: Popped, after: Popped, taken: seq<Scored>, more: seq<Scored>, x: Scored) {
    && |Waiting(before)| <= |taken| && |Waiting(after)| <= |more|
    && OutOf(after, more) == OutOf(before, taken) + if before.head == Some(x) then [x] else []
  }

  ghost predicate MovesAt(before: seq<Popped>, after: seq<Popped>, taken: Lists, more: Lists, x: Scored, s: nat)
    requires s < |before| && s < |after| && s < |taken| && s < |more|
  {
    Moves(before[s], after[s], taken[s], more[s], x)
  }

  // A source moves on if its head is the point.
  method PassOne(slot: Popped, x: Scored, ghost pos: nat, ghost list: seq<Scored>, ghost size: nat,
                 ghost pool: set<Scored>, ghost given: seq<Result<ScoreBatch, Error>>, ghost taken: seq<Scored>)
      returns (r: Result<Popped, Error>, ghost more: seq<Scored>)
    requires AllWithin([slot], pool) && Tracks(given, slot, taken)
    ensures r.Ok? ==> AllWithin([r.value], pool)
    ensures r.Ok? ==> Tracks(given, r.value, more) && Moves(slot, r.value, taken, more, x)
    ensures Stands(slot, pos, list, size) && Ranked(list) ==>
      r.Ok? && Stands(r.value, pos + if slot.head == Some(x) then 1 else 0, list, size)
  {
    assert [slot][0] == slot;
    if slot.head != Some(x) {
      return Ok(slot), taken;
    }
    var popped := Pop(slot.source, slot.previous, pos + 1, list, size, pool, given, taken);
    if popped.Err? { return Err(popped.error), taken; }
    r, more := popped, taken + Waiting(popped.value);
    assert OutOf(r.value, more) == taken;
  }

  // Every source whose head is the point moves on.
  method PassAll(slots: seq<Popped>, x: Scored, ghost lists: Lists, ghost counts: seq<nat>, ghost size: nat,
                 ghost pool: set<Scored>, ghost given: seq<seq<Result<ScoreBatch, Error>>>, ghost taken: Lists)
      returns (r: Result<seq<Popped>, Error>, ghost after: seq<nat>, ghost more: Lists)
    requires AllWithin(slots, pool) && AllTrack(given, slots, taken)
    ensures r.Ok? ==> |r.value| == |slots| && AllWithin(r.value, pool)
    ensures r.Ok? ==>
      && AllTrack(given, r.value, more)
      && forall s :: 0 <= s < |slots| ==> MovesAt(slots, r.value, taken, more, x, s)
    ensures AllStand(slots, lists, counts, size) && AllRanked(lists) ==>
      && r.Ok? && AllStand(r.value, lists, after, size)
      && Counted(lists, counts) && Advances(lists, counts, after, x)
  {
    ghost var honest := AllStand(slots, lists, counts, size) && AllRanked(lists);
    if honest { StandingIsCounted(slots, lists, counts, size); }
    var moved: seq<Popped> := [];
    after, more := [], [];
    for s := 0 to |slots|
      invariant |moved| == s && Handled(given, slots, moved, taken, more, x, pool)
      invariant honest ==> Passed(moved, lists, counts, after, size, x)
    {
      r, after, more := PassNext(slots, moved, x, honest, lists, counts, size, pool, given, taken, after, more);
      if r.Err? { return; }
      moved := r.value;
    }
    if honest { AllPassed(moved, lists, counts, after, size, x); }
    r := Ok(moved);
  }

  // The first sources have been handled.
  ghost predicate Handled(given: seq<seq<Result<ScoreBatch, Error>>>, slots: seq<Popped>, moved: seq<Popped>,
                          taken: Lists, more: Lists, x: Scored, pool: set<Scored>)
  {
    && |moved| == |more| <= |slots| == |taken| == |given| && AllWithin(moved, pool)
    && forall t :: 0 <= t < |moved| ==> TrackAt(given, moved, more, t) && MovesAt(slots, moved, taken, more, x, t)
  }

  method PassNext(slots: seq<Popped>, moved: seq<Popped>, x: Scored, ghost honest: bool, ghost lists: Lists,
                  ghost counts: seq<nat>, ghost size: nat, ghost pool: set<Scored>,
                  ghost given: seq<seq<Result<ScoreBatch, Error>>>, ghost taken: Lists, ghost before: seq<nat>,
                  ghost some: Lists)
      returns (r: Result<seq<Popped>, Error>, ghost after: seq<nat>, ghost more: Lists)
    requires AllWithin(slots, pool) && AllTrack(given, slots, taken) && |moved| < |slots|
    requires Handled(given, slots, moved, taken, some, x, pool)
    requires honest ==>
      && AllStand(slots, lists, counts, size) && AllRanked(lists) && Counted(lists, counts)
      && (forall s, y :: 0 <= s < |lists| ==> (slots[s].head == Some(y) <==> Offers(lists, counts, s, y)))
      && Passed(moved, lists, counts, before, size, x)
    ensures r.Ok? ==> |r.value| == |moved| + 1 && Handled(given, slots, r.value, taken, more, x, pool)
    ensures honest ==> r.Ok? && Passed(r.value, lists, counts, after, size, x)
  {
    ghost var s := |moved|;
    after, more := before, some;
    assert TrackAt(given, slots, taken, s);
    assert honest ==> Stands(slots[s], counts[s], lists[s], size);
    var slot;
    ghost var one;
    slot, one := PassOne(slots[|moved|], x, if honest then counts[s] else 0, if honest then lists[s] else [], size,
                         pool, given[s], taken[s]);
    if slot.Err? { return Err(slot.error), after, more; }
    TrackMore(given, slots, moved, taken, some, x, slot.value, one);
    OneMore(moved, slot.value, pool);
    if honest {
      PassMore(moved, lists, counts, before, size, x, slot.value);
      after := before + [counts[s] + if Offers(lists, counts, s, x) then 1 else 0];
    }
    r, more := Ok(moved + [slot.value]), some + [one];
  }

  // The first sources have moved past the point, if they offer it.
  ghost predicate Passed(moved: seq<Popped>, lists: Lists, counts: seq<nat>, after: seq<nat>, size: nat, x: Scored)
    requires Counted(lists, counts)
  {
    |after| == |moved| <= |lists| && forall t :: 0 <= t < |moved| ==> PassedAt(moved, lists, counts, after, size, x, t)
  }

  ghost predicate PassedAt(moved: seq<Popped>, lists: Lists, counts: seq<nat>, after: seq<nat>, size: nat, x: Scored,
                           t: nat)
    requires Counted(lists, counts) && t < |after| == |moved| <= |lists|
  {
    && after[t] == counts[t] + (if Offers(lists, counts, t, x) then 1 else 0)
    && Stands(moved[t], after[t], lists[t], size)
  }

  lemma PassMore(moved: seq<Popped>, lists: Lists, counts: seq<nat>, after: seq<nat>, size: nat, x: Scored,
                 slot: Popped)
    requires Counted(lists, counts) && Passed(moved, lists, counts, after, size, x) && |moved| < |lists|
    requires Stands(slot, counts[|moved|] + if Offers(lists, counts, |moved|, x) then 1 else 0, lists[|moved|], size)
    ensures Passed(moved + [slot], lists, counts,
                   after + [counts[|moved|] + if Offers(lists, counts, |moved|, x) then 1 else 0], size, x)
  {
    var longer := after + [counts[|moved|] + if Offers(lists, counts, |moved|, x) then 1 else 0];
    forall t | 0 <= t <= |moved|
      ensures PassedAt(moved + [slot], lists, counts, longer, size, x, t)
    {
      if t < |moved| { assert PassedAt(moved, lists, counts, after, size, x, t); }
    }
  }

  lemma AllPassed(moved: seq<Popped>, lists: Lists, counts: seq<nat>, after: seq<nat>, size: nat, x: Scored)
    requires Counted(lists, counts) && Passed(moved, lists, counts, after, size, x) && |moved| == |lists|
    ensures AllStand(moved, lists, after, size) && Advances(lists, counts, after, x)
  {
    forall t | 0 <= t < |lists|
      ensures Stands(moved[t], after[t], lists[t], size)
      ensures after[t] == counts[t] + if Offers(lists, counts, t, x) then 1 else 0
    {
      assert PassedAt(moved, lists, counts, after, size, x, t);
    }
  }

  lemma TrackMore(given: seq<seq<Result<ScoreBatch, Error>>>, slots: seq<Popped>, moved: seq<Popped>, taken: Lists,
                  more: Lists, x: Scored, slot: Popped, one: seq<Scored>)
    requires |moved| == |more| < |slots| == |taken| == |given|
    requires forall t :: 0 <= t < |moved| ==> TrackAt(given, moved, more, t) && MovesAt(slots, moved, taken, more, x, t)
    requires Tracks(given[|moved|], slot, one) && Moves(slots[|moved|], slot, taken[|moved|], one, x)
    ensures forall t :: 0 <= t <= |moved| ==>
      TrackAt(given, moved + [slot], more + [one], t) && MovesAt(slots, moved + [slot], taken, more + [one], x, t)
  {
    forall t | 0 <= t <= |moved|
      ensures TrackAt(given, moved + [slot], more + [one], t)
      ensures MovesAt(slots, moved + [slot], taken, more + [one], x, t)
    {
      if t < |moved| { assert TrackAt(given, moved, more, t) && MovesAt(slots, moved, taken, more, x, t); }
    }
  }

  // A source is popped before anything goes out.
  method PopHead(replies: seq<Result<ScoreBatch, Error>>, ghost list: seq<Scored>, ghost size: nat,
                 ghost pool: set<Scored>)
      returns (r: Result<Popped, Error>)
    requires Within(ScoreSource(replies, [], false), pool)
    ensures r.Ok? ==> AllWithin([r.value], pool) && Tracks(replies, r.value, Waiting(r.value))
    ensures Ranked(list) && HonestScores(replies, 0, list, size) ==> r.Ok? && Stands(r.value, 0, list, size)
  {
    var source := ScoreSource(replies, [], false);
    assert K.Told(replies, source, [] + source.buffer) by {
      K.ToldNothing(replies);
      assert [] + source.buffer == [];
    }
    r := Pop(source, None, 0, list, size, pool, replies, []);
    assert r.Ok? ==> [] + Waiting(r.value) == Waiting(r.value);
  }

  method PopFirst(replies: seq<seq<Result<ScoreBatch, Error>>>, ghost lists: Lists, ghost size: nat)
      returns (r: Result<seq<Popped>, Error>)
    ensures r.Ok? ==> |r.value| == |replies| && AllWithin(r.value, K.PoolOf(replies))
    ensures r.Ok? ==> AllTrack(replies, r.value, AllWaiting(r.value))
    ensures AllHonest(replies, lists, size) ==>
      r.Ok? && forall s :: 0 <= s < |lists| ==> Stands(r.value[s], 0, lists[s], size)
  {
    ghost var honest := AllHonest(replies, lists, size);
    var slots: seq<Popped> := [];
    for s := 0 to |replies|
      invariant |slots| == s && AllWithin(slots, K.PoolOf(replies))
      invariant forall t :: 0 <= t < s ==> WaitsAt(replies, slots, t)
      invariant honest ==> forall t :: 0 <= t < s ==> Stands(slots[t], 0, lists[t], size)
    {
      r := PopNext(replies, slots, honest, lists, size);
      if r.Err? { return; }
      slots := r.value;
    }
    forall t | 0 <= t < |slots| ensures TrackAt(replies, slots, AllWaiting(slots), t) {
      assert WaitsAt(replies, slots, t);
    }
    r := Ok(slots);
  }

  method PopNext(replies: seq<seq<Result<ScoreBatch, Error>>>, slots: seq<Popped>, ghost honest: bool,
                 ghost lists: Lists, ghost size: nat)
      returns (r: Result<seq<Popped>, Error>)
    requires |slots| < |replies| && AllWithin(slots, K.PoolOf(replies))
    requires forall t :: 0 <= t < |slots| ==> WaitsAt(replies, slots, t)
    requires honest ==>
      AllHonest(replies, lists, size) && forall t :: 0 <= t < |slots| ==> Stands(slots[t], 0, lists[t], size)
    ensures r.Ok? ==> |r.value| == |slots| + 1 && AllWithin(r.value, K.PoolOf(replies))
    ensures r.Ok? ==> forall t :: 0 <= t <= |slots| ==> WaitsAt(replies, r.value, t)
    ensures honest ==> r.Ok? && forall t :: 0 <= t <= |slots| ==> Stands(r.value[t], 0, lists[t], size)
  {
    ghost var s, pool := |slots|, K.PoolOf(replies);
    StartsWithin(replies, s);
    var popped := PopHead(replies[|slots|], if honest then lists[s] else [], size, pool);
    if popped.Err? { return Err(popped.error); }
    OneMore(slots, popped.value, pool);
    WaitMore(replies, slots, popped.value);
    r := Ok(slots + [popped.value]);
  }

  ghost predicate WaitsAt(given: seq<seq<Result<ScoreBatch, Error>>>, slots: seq<Popped>, s: nat)
    requires s < |given| && s < |slots|
  {
    Tracks(given[s], slots[s], Waiting(slots[s]))
  }

  lemma WaitMore(given: seq<seq<Result<ScoreBatch, Error>>>, slots: seq<Popped>, slot: Popped)
    requires |slots| < |given| && Tracks(given[|slots|], slot, Waiting(slot))
    requires forall t :: 0 <= t < |slots| ==> WaitsAt(given, slots, t)
    ensures forall t :: 0 <= t <= |slots| ==> WaitsAt(given, slots + [slot], t)
  {
    forall t | 0 <= t <= |slots|
      ensures WaitsAt(given, slots + [slot], t)
    {
      if t < |slots| { assert WaitsAt(given, slots, t); }
    }
  }

  ghost function AllWaiting(slots: seq<Popped>): (taken: Lists)
    ensures |taken| == |slots| && forall s :: 0 <= s < |slots| ==> taken[s] == Waiting(slots[s])
  {
    seq(|slots|, s requires 0 <= s < |slots| => Waiting(slots[s]))
  }

  lemma OneMore(slots: seq<Popped>, slot: Popped, pool: set<Scored>)
    requires AllWithin(slots, pool) && AllWithin([slot], pool)
    ensures AllWithin(slots + [slot], pool)
  {
    assert [slot][0] == slot;
  }

  class ExactShardStream {
    const versions: Versions
    var slots: seq<Popped>
    var seen: set<PointId>
    var terminalError: Option<Error>
    ghost const given: seq<seq<Result<ScoreBatch, Error>>>
    ghost const pool: set<Scored>
    ghost var taken: Lists
    ghost var counts: seq<nat>
    ghost var emitted: seq<Scored>

    ghost predicate Valid()
      reads this
    {
      && AllWithin(slots, pool) && DistinctIds(emitted)
      && (forall e :: e in emitted ==> e in pool && e.id in seen)
      && (forall id :: id in seen ==> K.IdIn(emitted, id))
      && AllTrack(given, slots, taken) && AllOut(given, slots, taken, emitted)
    }

    ghost predicate Delivers(lists: Lists, size: nat)
      reads this
    {
      && AllRanked(lists) && AllStand(slots, lists, counts, size) && Counted(lists, counts)
      && Merges(lists, counts, emitted) && SameVersions(lists, counts, versions)
    }

    constructor Create(slots: seq<Popped>, versions: Versions, ghost given: seq<seq<Result<ScoreBatch, Error>>>)
      requires AllWithin(slots, K.PoolOf(given)) && AllTrack(given, slots, AllWaiting(slots))
      ensures Valid() && this.slots == slots && this.versions == versions && this.given == given
      ensures emitted == [] && terminalError.None? && counts == seq(|slots|, _ => 0)
    {
      this.slots, this.versions, this.given, this.pool := slots, versions, given, K.PoolOf(given);
      taken := AllWaiting(slots);
      seen, terminalError, emitted, counts := {}, None, [], seq(|slots|, _ => 0);
    }

    // Opens the merge: every source is asked for its first point.
    static method Open(replies: seq<seq<Result<ScoreBatch, Error>>>, versions: Versions, size: nat, ghost lists: Lists)
        returns (r: Result<ExactShardStream, Error>)
      ensures size == 0 ==> r.Err?
      ensures r.Ok? ==>
        fresh(r.value) && r.value.Valid() && r.value.emitted == [] && r.value.terminalError.None?
      ensures r.Ok? ==> r.value.versions == versions && r.value.given == replies
      ensures size > 0 && AllHonest(replies, lists, size) ==> r.Ok? && r.value.Delivers(lists, size)
    {
      if size == 0 { return Err(Validation); }
      var slots := PopFirst(replies, lists, size);
      if slots.Err? { return Err(slots.error); }
      var stream := new ExactShardStream.Create(slots.value, versions, replies);
      if AllHonest(replies, lists, size) { NothingOut(lists, stream.counts, versions); }
      r := Ok(stream);
    }

    // Every segment told its end without a failure, and all it told is out.
    ghost predicate Told()
      reads this
    {
      K.ToldToTheEnd(given, taken) && Unites(taken, emitted)
    }

    // The best head goes out together with its copies. A conflict between copies,
    // or a second point under an identity that went out, is an error.
    method NextInner(ghost lists: Lists, ghost size: nat) returns (r: Result<Option<Scored>, Error>)
      requires Valid()
      modifies `slots, `seen, `counts, `emitted, `taken
      ensures r.Ok? ==> Valid() && |slots| == |old(slots)|
      ensures r.Ok? && r.value.None? ==> Told()
      ensures r.Ok? ==> emitted == old(emitted) + if r.value.Some? then [r.value.value] else []
      ensures old(Delivers(lists, size)) && r.Ok? ==> Delivers(lists, size)
      ensures old(Delivers(lists, size)) && r.Ok? && r.value.None? ==>
        forall s :: 0 <= s < |lists| ==> counts[s] == |lists[s]|
      ensures old(Delivers(lists, size)) && Agree(lists, versions) ==> r.Ok?
    {
      ghost var honest := Delivers(lists, size);
      var b := K.PopIndex(Heads(slots));
      if b.None? {
        EndIsTold(given, slots, taken, emitted);
        if honest { AllAtEnd(slots, lists, counts, size); }
        return Ok(None);
      }
      var x := slots[b.value].head.value;
      var version := versions(b.value, x.id);
      if honest { FirstIsOffered(slots, lists, counts, emitted, versions, size, b.value); }
      var same := SameVersion(slots, versions, x, version);
      if !same { return Err(InconsistentStorage); }
      ghost var after, more;
      var moved;
      moved, after, more := PassAll(slots, x, lists, counts, size, pool, given, taken);
      if moved.Err? { return Err(moved.error); }
      if x.id in seen { return Err(InconsistentStorage); }
      if honest { MergeStep(lists, counts, after, emitted, x, versions, version); }
      OutMore(given, slots, taken, emitted, moved.value, more, x, b.value);
      Emit(x, moved.value, after, more);
      r := Ok(Some(x));
    }

    ghost predicate Usable()
      reads this
    {
      terminalError.None? ==> Valid()
    }

    // Up to so many points, fewer only at the end. An error is final.
    method NextBatch(max: nat, ghost lists: Lists, ghost size: nat) returns (r: Result<seq<Scored>, Error>)
      requires Usable()
      modifies this
      ensures Usable()
      ensures max == 0 ==> r.Err? && terminalError == old(terminalError)
      ensures max > 0 && old(terminalError.Some?) ==> r == Err(old(terminalError.value))
      ensures max > 0 && r.Err? ==> terminalError == Some(r.error)
      ensures r.Ok? ==> terminalError.None? && emitted == old(emitted) + r.value && |r.value| <= max
      ensures r.Ok? && |r.value| < max ==> Told()
      ensures r.Ok? && old(Delivers(lists, size)) ==> Delivers(lists, size)
      ensures r.Ok? && old(Delivers(lists, size)) && |r.value| < max ==>
        forall s :: 0 <= s < |lists| ==> counts[s] == |lists[s]|
      ensures max > 0 && old(terminalError.None? && Delivers(lists, size)) && Agree(lists, versions) ==> r.Ok?
    {
      if max == 0 { return Err(Validation); }
      if terminalError.Some? { return Err(terminalError.value); }
      var output := [];
      while |output| < max
        invariant Valid() && terminalError.None? && emitted == old(emitted) + output && |output| <= max
        invariant old(Delivers(lists, size)) ==> Delivers(lists, size)
        decreases max - |output|
      {
        var next := NextInner(lists, size);
        if next.Err? {
          slots, terminalError := [], Some(next.error);
          return Err(next.error);
        }
        if next.value.None? { return Ok(output); }
        output := output + [next.value.value];
      }
      r := Ok(output);
    }

    method Emit(x: Scored, moved: seq<Popped>, ghost after: seq<nat>, ghost more: Lists)
      requires Valid() && x in pool && x.id !in seen && AllWithin(moved, pool)
      requires AllTrack(given, moved, more) && AllOut(given, moved, more, emitted + [x])
      modifies `slots, `seen, `counts, `emitted, `taken
      ensures Valid() && slots == moved && counts == after && emitted == old(emitted) + [x]
    {
      SeenGrows(emitted, seen, x);
      slots, seen, counts, emitted, taken := moved, seen + {x.id}, after, emitted + [x], more;
    }
  }

  lemma OutMore(given: seq<seq<Result<ScoreBatch, Error>>>, slots: seq<Popped>, taken: Lists, emitted: seq<Scored>,
                moved: seq<Popped>, more: Lists, x: Scored, b: nat)
    requires AllTrack(given, slots, taken) && AllOut(given, slots, taken, emitted) && AllTrack(given, moved, more)
    requires forall s :: 0 <= s < |slots| ==> MovesAt(slots, moved, taken, more, x, s)
    requires b < |slots| && slots[b].head == Some(x)
    ensures AllOut(given, moved, more, emitted + [x])
  {
    forall y, s | 0 <= s < |slots|
      ensures IsOut(given, moved, more, s, y) <==>
        IsOut(given, slots, taken, s, y) || (y == x && slots[s].head == Some(x))
    {
      assert MovesAt(slots, moved, taken, more, x, s);
    }
    assert IsOut(given, moved, more, b, x);
  }

  // No failure is mistaken for an end.
  lemma EndIsTold(given: seq<seq<Result<ScoreBatch, Error>>>, slots: seq<Popped>, taken: Lists, emitted: seq<Scored>)
    requires AllTrack(given, slots, taken) && AllOut(given, slots, taken, emitted)
    requires forall s :: 0 <= s < |slots| ==> slots[s].head.None?
    ensures K.ToldToTheEnd(given, taken)
    ensures Unites(taken, emitted)
  {
    forall s | 0 <= s < |slots|
      ensures forall x :: IsOut(given, slots, taken, s, x) <==> x in taken[s]
      ensures K.Yield(given[s]) == Some(taken[s])
    {
      assert TrackAt(given, slots, taken, s);
      assert taken[s] + slots[s].source.buffer == taken[s];
    }
  }

  lemma MergeStep(lists: Lists, before: seq<nat>, after: seq<nat>, emitted: seq<Scored>, x: Scored,
                  versions: Versions, version: nat)
    requires AllRanked(lists) && Counted(lists, before) && Merges(lists, before, emitted)
    requires SameVersions(lists, before, versions) && OneVersion(lists, before, versions, x, version)
    requires IsFirst(lists, before, x) && Advances(lists, before, after, x)
    ensures Counted(lists, after) && Merges(lists, after, emitted + [x]) && SameVersions(lists, after, versions)
  {
    MergeOne(lists, before, after, emitted, x);
    VersionsStaySame(lists, before, after, emitted, x, versions, version);
  }

  // The best head is the next point of the lists; agreeing copies do not conflict.
  lemma FirstIsOffered(slots: seq<Popped>, lists: Lists, counts: seq<nat>, emitted: seq<Scored>, versions: Versions,
                       size: nat, b: nat)
    requires AllStand(slots, lists, counts, size) && Counted(lists, counts) && Merges(lists, counts, emitted)
    requires b < |slots| && slots[b].head.Some?
    requires forall s :: 0 <= s < |slots| && slots[s].head.Some? ==> !Precedes(slots[s].head.value, slots[b].head.value)
    ensures
      var x := slots[b].head.value;
      var version := versions(b, x.id);
      && IsFirst(lists, counts, x)
      && ((forall s :: 0 <= s < |slots| && slots[s].head == Some(x) ==> versions(s, x.id) == version) <==>
            OneVersion(lists, counts, versions, x, version))
      && (Agree(lists, versions) ==>
            OneVersion(lists, counts, versions, x, version) && forall e :: e in emitted ==> e.id != x.id)
  {
    BestIsFirst(slots, lists, counts, size, b);
    StandingIsCounted(slots, lists, counts, size);
    var x := slots[b].head.value;
    if Agree(lists, versions) { AgreeingOffer(lists, counts, emitted, versions, x, b); }
  }

  lemma SeenGrows(emitted: seq<Scored>, seen: set<PointId>, x: Scored)
    requires DistinctIds(emitted) && (forall e :: e in emitted ==> e.id in seen) && x.id !in seen
    requires forall id :: id in seen ==> K.IdIn(emitted, id)
    ensures DistinctIds(emitted + [x]) && forall e :: e in emitted + [x] ==> e.id in seen + {x.id}
    ensures forall id :: id in seen + {x.id} ==> K.IdIn(emitted + [x], id)
  {
    forall id | id in seen + {x.id} ensures K.IdIn(emitted + [x], id) {
      if id == x.id {
        assert x in emitted + [x];
      } else {
        var e :| e in emitted && e.id == id;
        assert e in emitted + [x];
      }
    }
    forall i | 0 <= i < |emitted| ensures emitted[i].id != x.id { assert emitted[i] in emitted; }
  }

  lemma AllAtEnd(slots: seq<Popped>, lists: Lists, counts: seq<nat>, size: nat)
    requires AllStand(slots, lists, counts, size) && forall s :: 0 <= s < |slots| ==> slots[s].head.None?
    ensures forall s :: 0 <= s < |lists| ==> counts[s] == |lists[s]|
  {
    forall s | 0 <= s < |lists| ensures counts[s] == |lists[s]| { assert Stands(slots[s], counts[s], lists[s], size); }
  }

  lemma BestIsFirst(slots: seq<Popped>, lists: Lists, counts: seq<nat>, size: nat, b: nat)
    requires AllStand(slots, lists, counts, size) && b < |slots| && slots[b].head.Some?
    requires forall s :: 0 <= s < |slots| && slots[s].head.Some? ==> !Precedes(slots[s].head.value, slots[b].head.value)
    ensures Counted(lists, counts) && IsFirst(lists, counts, slots[b].head.value)
      && Offers(lists, counts, b, slots[b].head.value)
  {
    StandingIsCounted(slots, lists, counts, size);
    var x := slots[b].head.value;
    assert Offers(lists, counts, b, x);
    forall s | 0 <= s < |lists| && counts[s] < |lists[s]| ensures !Precedes(lists[s][counts[s]], x) {
      assert Stands(slots[s], counts[s], lists[s], size);
    }
  }

  // ---------------------------------------------------------------------
  // Whole streams

  ghost predicate AllHonest(replies: seq<seq<Result<ScoreBatch, Error>>>, lists: Lists, size: nat) {
    && |replies| == |lists| && AllRanked(lists)
    && forall s :: 0 <= s < |lists| ==> HonestScores(replies[s], 0, lists[s], size)
  }

  lemma StartsWithin(replies: seq<seq<Result<ScoreBatch, Error>>>, s: nat)
    requires s < |replies|
    ensures Within(ScoreSource(replies[s], [], false), K.PoolOf(replies))
  {
    forall i, p | 0 <= i < |replies[s]| && replies[s][i].Ok? && p in replies[s][i].value.points
      ensures p in K.PoolOf(replies)
    {
      assert p in K.PointsOf(replies[s]);
    }
  }

  lemma NothingOut(lists: Lists, counts: seq<nat>, versions: Versions)
    requires |counts| == |lists| && forall s :: 0 <= s < |counts| ==> counts[s] == 0
    ensures Counted(lists, counts) && Merges(lists, counts, []) && SameVersions(lists, counts, versions)
  {
  }

  lemma {:induction false} DistinctSize(xs: seq<Scored>, pool: set<Scored>)
    requires DistinctIds(xs) && forall x :: x in xs ==> x in pool
    ensures |xs| <= |pool|
    decreases |xs|
  {
    if xs != [] {
      var n := |xs| - 1;
      forall x | x in xs[..n] ensures x in pool - {xs[n]} {
        var i :| 0 <= i < n && xs[i] == x;
        assert xs[i].id != xs[n].id;
      }
      DistinctSize(xs[..n], pool - {xs[n]});
    }
  }

  // Every segment told its end without a failure, and these are the points told.
  ghost predicate AllGiven(given: seq<seq<Result<ScoreBatch, Error>>>, list: seq<Scored>) {
    exists told: Lists :: K.ToldToTheEnd(given, told) && Unites(told, list)
  }

  ghost predicate Unites(told: Lists, list: seq<Scored>) {
    forall x :: x in list <==> exists s :: 0 <= s < |told| && x in told[s]
  }

  // The replies of the shard to pulls of at most max points, the last of which
  // ends the stream or fails. If the segments deliver ranked lists, the last is
  // no failure exactly if copies agree; the replies then deliver the ranking of
  // all points of the segments, each once.
  method PullShard(stream: ExactShardStream, max: nat, ghost lists: Lists, ghost size: nat)
      returns (replies: seq<Result<ScoreBatch, Error>>, ghost list: seq<Scored>)
    requires stream.Valid() && stream.terminalError.None? && max > 0
    modifies stream
    ensures replies != [] && old(stream.emitted) <= list
    ensures Last(replies).Ok? ==> HonestScores(replies, |old(stream.emitted)|, list, max)
    ensures Last(replies).Ok? ==> AllGiven(stream.given, list)
    ensures old(stream.Delivers(lists, size)) && Last(replies).Ok? ==>
      IsMerged(lists, list) && Agree(lists, stream.versions)
    ensures old(stream.Delivers(lists, size)) && Agree(lists, stream.versions) ==> Last(replies).Ok?
    decreases |stream.pool| - |stream.emitted|
  {
    DistinctSize(stream.emitted, stream.pool);
    var batch := stream.NextBatch(max, lists, size);
    list := stream.emitted;
    if batch.Err? { return [Err(batch.error)], old(stream.emitted); }
    if |batch.value| < max {
      if old(stream.Delivers(lists, size)) {
        EndAgrees(lists, stream.counts, stream.emitted, stream.versions);
        EndIsMerged(lists, stream.counts, stream.emitted);
      }
      return [Ok(ScoreBatch(batch.value, true))], list;
    }
    DistinctSize(stream.emitted, stream.pool);
    ghost var start := stream.emitted;
    var rest;
    rest, list := PullShard(stream, max, lists, size);
    replies := [Ok(ScoreBatch(batch.value, false))] + rest;
    assert Last(replies) == Last(rest);
    if Last(rest).Ok? { MoreReplies(old(stream.emitted), batch.value, rest, list, max); }
  }

  lemma MoreReplies(before: seq<Scored>, points: seq<Scored>, rest: seq<Result<ScoreBatch, Error>>, list: seq<Scored>,
                    max: nat)
    requires before + points <= list && 0 < |points| <= max && HonestScores(rest, |before + points|, list, max)
    ensures HonestScores([Ok(ScoreBatch(points, false))] + rest, |before|, list, max)
  {
    var replies := [Ok(ScoreBatch(points, false))] + rest;
    assert replies[1..] == rest;
    assert (before + points)[|before|..] == points;
  }

  lemma EndIsMerged(lists: Lists, counts: seq<nat>, emitted: seq<Scored>)
    requires Counted(lists, counts) && Merges(lists, counts, emitted)
    requires forall s :: 0 <= s < |lists| ==> counts[s] == |lists[s]|
    ensures IsMerged(lists, emitted)
  {
    forall x ensures x in emitted <==> exists s :: 0 <= s < |lists| && x in lists[s] {
      if x in emitted {
        var s, i :| 0 <= s < |lists| && 0 <= i < counts[s] && lists[s][i] == x;
        assert x in lists[s];
      }
      if s :| 0 <= s < |lists| && x in lists[s] {
        var i :| 0 <= i < |lists[s]| && lists[s][i] == x;
        assert Out(lists, counts, x);
      }
    }
  }

  // A shard from the replies of its segments to its own.
  method ShardReplies(replies: seq<seq<Result<ScoreBatch, Error>>>, versions: Versions, size: nat, max: nat,
                      ghost lists: Lists)
      returns (r: Result<seq<Result<ScoreBatch, Error>>, Error>, ghost list: seq<Scored>)
    ensures r.Ok? ==> size > 0 && max > 0 && r.value != []
    ensures r.Ok? && Last(r.value).Ok? ==> HonestScores(r.value, 0, list, max) && AllGiven(replies, list)
    ensures size > 0 && max > 0 && AllHonest(replies, lists, size) ==>
      r.Ok? && (Last(r.value).Ok? <==> Agree(lists, versions)) && (Agree(lists, versions) ==> IsMerged(lists, list))
  {
    list := [];
    if max == 0 { return Err(Validation), list; }
    var stream := ExactShardStream.Open(replies, versions, size, lists);
    if stream.Err? { return Err(stream.error), list; }
    var out;
    out, list := PullShard(stream.value, max, lists, size);
    r := Ok(out);
  }
}
