// The stream object around the k-way merge.
//
// Source: lib/segment/src/index/exact_rank_stream.rs
module KWayStream {
  import opened Common
  import opened RankOrder
  import opened KWayMerge

  // Index of the waiting head that wins: best point, lowest source on ties.
  method PopIndex(pending: seq<Option<Scored>>) returns (b: Option<nat>)
    ensures b.None? <==> forall s :: 0 <= s < |pending| ==> pending[s].None?
    ensures b.Some? ==> b.value < |pending| && pending[b.value].Some?
    ensures b.Some? ==> forall s :: 0 <= s < |pending| && pending[s].Some? ==>
      && !Precedes(pending[s].value, pending[b.value].value)
      && (pending[s] == pending[b.value] ==> b.value <= s)
  {
    b := None;
    for s := 0 to |pending|
      invariant b.None? <==> forall t :: 0 <= t < s ==> pending[t].None?
      invariant b.Some? ==> b.value < s && pending[b.value].Some?
      invariant b.Some? ==> forall t :: 0 <= t < s && pending[t].Some? ==>
        && !Precedes(pending[t].value, pending[b.value].value)
        && (pending[t] == pending[b.value] ==> b.value <= t)
    {
      if pending[s].Some? && (b.None? || Precedes(pending[s].value, pending[b.value].value)) {
        b := Some(s);
      }
    }
  }

  // The batch an exact channel order yields from a given rank on.
  function RankReply(order: seq<PointId>, start: nat, max: nat): RankBatch
    requires start <= |order|
  {
    if start + max <= |order| then RankBatch(start, order[start..start + max], false)
    else RankBatch(start, order[start..], true)
  }

  ghost predicate Admissible(source: ScoreSource, size: nat, previous: Option<Scored>, seen: set<PointId>) {
    && source.replies != [] && source.replies[0].Ok?
    && var batch := source.replies[0].value;
       |batch.points| <= size && (batch.points == [] ==> batch.exhausted) && Fits(previous, seen, batch.points)
  }

  // Takes the next reply of a source, or refuses it.
  method Accept(source: ScoreSource, size: nat, previous: Option<Scored>, seen: set<PointId>)
      returns (r: Result<ScoreSource, Error>)
    ensures r.Ok? <==> Admissible(source, size, previous, seen)
    ensures r.Ok? ==>
      var batch := source.replies[0].value;
      r.value == ScoreSource(source.replies[1..], batch.points, batch.exhausted)
  {
    if source.replies == [] {
      return Err(Producer);
    }
    if source.replies[0].Err? {
      return Err(source.replies[0].error);
    }
    var batch := source.replies[0].value;
    if |batch.points| > size || (batch.points == [] && !batch.exhausted) {
      return Err(Validation);
    }
    var fits := BatchFits(previous, seen, batch.points);
    if !fits {
      return Err(Validation);
    }
    r := Ok(ScoreSource(source.replies[1..], batch.points, batch.exhausted));
  }

  // ---------------------------------------------------------------------
  // The books: the ledger plus what the stream keeps about each source

  datatype Books = Books(m: Ledger, sources: seq<ScoreSource>, previous: seq<Option<Scored>>,
                         exhausted: seq<bool>, seen: set<PointId>)

  ghost predicate SourceOk(source: ScoreSource, delivered: seq<Scored>, pulls: nat,
                           pending: Option<Scored>, previous: Option<Scored>, exhausted: bool) {
    && pulls <= |delivered|
    && source.buffer == delivered[pulls..]
    && previous == (if pulls == 0 then None else Some(delivered[pulls - 1]))
    && (exhausted ==> pending.None? && source.ended && pulls == |delivered|)
  }

  ghost predicate Sound(k: Books) {
    && Consistent(k.m)
    && |k.sources| == |k.previous| == |k.exhausted| == |k.m.delivered|
    && (forall s :: 0 <= s < |k.sources| ==>
          SourceOk(k.sources[s], k.m.delivered[s], k.m.taken[s], k.m.pending[s], k.previous[s], k.exhausted[s]))
    && (forall id :: id in k.seen <==> IdIn(k.m.emitted, id))
  }

  ghost predicate IdIn(emitted: seq<Scored>, id: PointId) {
    exists e :: e in emitted && e.id == id
  }

  // The sources deliver exactly these lists.
  ghost predicate Honest(k: Books, lists: seq<seq<Scored>>, size: nat)
    requires Sound(k)
  {
    && Universe(lists) && |lists| == |k.sources|
    && forall s :: 0 <= s < |lists| ==> HonestScoreSource(k.sources[s], k.m.delivered[s], lists[s], size)
  }

  ghost predicate HonestAll(replies: seq<seq<Result<ScoreBatch, Error>>>, lists: seq<seq<Scored>>, size: nat) {
    && Universe(lists) && |lists| == |replies|
    && forall s :: 0 <= s < |lists| ==> HonestScores(replies[s], 0, lists[s], size)
  }

  // Nothing is waiting for source s; it is about to be refilled.
  ghost predicate Due(k: Books, s: nat)
    requires Sound(k)
  {
    && s < |k.sources| && k.m.pending[s].None? && !k.exhausted[s]
    && (k.m.emitted != [] ==> k.previous[s] == Some(k.m.emitted[|k.m.emitted| - 1]))
  }

  ghost function AfterRead(k: Books, s: nat, next: ScoreSource): Books
    requires Sound(k) && s < |k.sources|
  {
    k.(m := k.m.(delivered := k.m.delivered[s := k.m.delivered[s] + next.buffer]),
       sources := k.sources[s := next])
  }

  // Accepting a reply of a due source with nothing buffered.
  lemma ReadStep(k: Books, s: nat, next: ScoreSource, size: nat, lists: seq<seq<Scored>>)
    requires Sound(k) && Due(k, s) && k.sources[s].buffer == []
    requires Fits(k.previous[s], k.seen, next.buffer)
    ensures Sound(AfterRead(k, s, next)) && Due(AfterRead(k, s, next), s)
  {
    assert |k.m.delivered[s]| == k.m.taken[s] + |k.sources[s].buffer|;
    Deliver(k.m, s, k.previous[s], k.seen, next.buffer);
    var n := AfterRead(k, s, next);
    assert n.m.delivered[s][n.m.taken[s]..] == next.buffer;
  }

  // An honest source is admitted...
  lemma HonestIsAdmitted(k: Books, s: nat, size: nat, lists: seq<seq<Scored>>)
    requires Sound(k) && Due(k, s) && k.sources[s].buffer == [] && !k.sources[s].ended
    requires Honest(k, lists, size)
    ensures Admissible(k.sources[s], size, k.previous[s], k.seen)
    ensures
      var points := k.sources[s].replies[0].value.points;
      k.m.delivered[s] + points <= lists[s]
  {
    assert HonestScoreSource(k.sources[s], k.m.delivered[s], lists[s], size);
    assert SourceOk(k.sources[s], k.m.delivered[s], k.m.taken[s], k.m.pending[s], k.previous[s], k.exhausted[s]);
    assert |k.m.delivered[s]| == k.m.taken[s] + |k.sources[s].buffer|;
    var batch := k.sources[s].replies[0].value;
    var end := |k.m.delivered[s]| + |batch.points|;
    SeenIds(k);
    HonestFits(k.m, lists, s, k.previous[s], k.seen, end);
    assert k.m.delivered[s] + batch.points == lists[s][..end];
  }

  // ...and stays honest.
  lemma HonestRead(k: Books, s: nat, size: nat, lists: seq<seq<Scored>>)
    requires Sound(k) && Due(k, s) && k.sources[s].buffer == [] && !k.sources[s].ended
    requires Honest(k, lists, size)
    ensures Admissible(k.sources[s], size, k.previous[s], k.seen)
    ensures
      var batch := k.sources[s].replies[0].value;
      var next := ScoreSource(k.sources[s].replies[1..], batch.points, batch.exhausted);
      Sound(AfterRead(k, s, next)) ==> Honest(AfterRead(k, s, next), lists, size)
  {
    HonestIsAdmitted(k, s, size, lists);
    assert HonestScoreSource(k.sources[s], k.m.delivered[s], lists[s], size);
  }

  lemma SeenIds(k: Books)
    requires Sound(k)
    ensures forall id :: id in k.seen <==> exists e :: e in k.m.emitted && e.id == id
  {
    assert forall id :: id in k.seen <==> IdIn(k.m.emitted, id);
  }

  ghost function AfterTake(k: Books, s: nat): Books
    requires s < |k.sources| == |k.previous| == |k.m.taken| == |k.m.pending| && k.sources[s].buffer != []
  {
    var point := k.sources[s].buffer[0];
    Books(k.m.(taken := k.m.taken[s := k.m.taken[s] + 1], pending := k.m.pending[s := Some(point)]),
          k.sources[s := k.sources[s].(buffer := k.sources[s].buffer[1..])],
          k.previous[s := Some(point)], k.exhausted, k.seen)
  }

  lemma TakeInOrder(k: Books, s: nat)
    requires Sound(k) && s < |k.sources| && k.sources[s].buffer != []
    ensures k.m.taken[s] < |k.m.delivered[s]| && k.sources[s].buffer[0] == k.m.delivered[s][k.m.taken[s]]
    ensures k.sources[s].buffer[1..] == k.m.delivered[s][k.m.taken[s] + 1..]
    ensures k.previous[s].Some? ==> !Precedes(k.sources[s].buffer[0], k.previous[s].value)
  {
    var d, taken := k.m.delivered[s], k.m.taken[s];
    assert k.sources[s].buffer == d[taken..];
    assert taken > 0 ==> !Precedes(d[taken], d[taken - 1]);
  }

  lemma TakeStep(k: Books, s: nat, size: nat, lists: seq<seq<Scored>>)
    requires Sound(k) && Due(k, s) && k.sources[s].buffer != []
    ensures Sound(AfterTake(k, s))
    ensures Honest(k, lists, size) ==> Honest(AfterTake(k, s), lists, size)
  {
    TakeKeepsSound(k, s);
  }

  lemma TakeKeepsSound(k: Books, s: nat)
    requires Sound(k) && Due(k, s) && k.sources[s].buffer != []
    ensures Sound(AfterTake(k, s))
  {
    TakeInOrder(k, s);
    TakeHead(k.m, s);
    var n := AfterTake(k, s);
    forall t | 0 <= t < |n.sources| ensures
      SourceOk(n.sources[t], n.m.delivered[t], n.m.taken[t], n.m.pending[t], n.previous[t], n.exhausted[t])
    {
      assert SourceOk(k.sources[t], k.m.delivered[t], k.m.taken[t], k.m.pending[t], k.previous[t], k.exhausted[t]);
    }
  }

  ghost function AfterEmit(k: Books, b: nat): Books
    requires b < |k.m.pending| && k.m.pending[b].Some?
  {
    var point := k.m.pending[b].value;
    k.(m := k.m.(pending := k.m.pending[b := None], emitted := k.m.emitted + [point]), seen := k.seen + {point.id})
  }

  // Every source has a head waiting or has ended.
  ghost predicate AllLoaded(k: Books)
    requires Sound(k)
  {
    forall s :: 0 <= s < |k.sources| ==> k.m.pending[s].Some? || k.exhausted[s]
  }

  // Between calls, only the source of the last emitted point may be due.
  ghost predicate Rested(k: Books, refill: Option<nat>)
    requires Sound(k)
  {
    && (refill.Some? ==> k.m.emitted != [] && Due(k, refill.value))
    && forall s :: 0 <= s < |k.sources| ==> k.m.pending[s].Some? || k.exhausted[s] || refill == Some(s)
  }

  // The head of an honest source has not been emitted before.
  lemma HonestIsNew(k: Books, b: nat, size: nat, lists: seq<seq<Scored>>)
    requires Sound(k) && Honest(k, lists, size) && b < |k.m.pending| && k.m.pending[b].Some?
    ensures k.m.pending[b].value.id !in k.seen
  {
    var point := k.m.pending[b].value;
    SeenIds(k);
    assert HonestScoreSource(k.sources[b], k.m.delivered[b], lists[b], size);
    assert lists[b][Count(k.m, b)] == point;
    forall e | e in k.m.emitted ensures e.id != point.id {
      EmittedPosition(k.m, lists, e, b, Count(k.m, b));
    }
  }

  lemma LoadedLedger(k: Books)
    requires Sound(k) && AllLoaded(k)
    ensures Loaded(k.m)
  {
    forall s | 0 <= s < |k.m.taken| && k.m.pending[s].None? ensures k.m.taken[s] == |k.m.delivered[s]| {
      assert SourceOk(k.sources[s], k.m.delivered[s], k.m.taken[s], k.m.pending[s], k.previous[s], k.exhausted[s]);
    }
  }

  lemma EmitStep(k: Books, b: nat)
    requires Sound(k) && Best(k.m, b) && AllLoaded(k) && k.m.pending[b].value.id !in k.seen
    ensures Sound(AfterEmit(k, b)) && Rested(AfterEmit(k, b), Some(b))
  {
    var point := k.m.pending[b].value;
    SeenIds(k);
    LoadedLedger(k);
    Emit(k.m, b);
    EmitIds(k.m.emitted, k.seen, point);
    forall s | 0 <= s < |k.sources| ensures
      SourceOk(k.sources[s], k.m.delivered[s], k.m.taken[s], AfterEmit(k, b).m.pending[s], k.previous[s],
               k.exhausted[s])
    {
      assert SourceOk(k.sources[s], k.m.delivered[s], k.m.taken[s], k.m.pending[s], k.previous[s], k.exhausted[s]);
    }
  }

  lemma EmitSteps(k: Books, b: nat, size: nat, lists: seq<seq<Scored>>)
    requires Sound(k) && Best(k.m, b) && AllLoaded(k)
    ensures k.m.pending[b].value.id !in k.seen ==>
      && Sound(AfterEmit(k, b)) && Rested(AfterEmit(k, b), Some(b))
      && (Honest(k, lists, size) ==> Honest(AfterEmit(k, b), lists, size))
    ensures Honest(k, lists, size) ==> k.m.pending[b].value.id !in k.seen
  {
    if k.m.pending[b].value.id !in k.seen { EmitStep(k, b); }
    if Honest(k, lists, size) { HonestIsNew(k, b, size, lists); }
  }

  lemma EmitIds(emitted: seq<Scored>, seen: set<PointId>, point: Scored)
    requires forall id :: id in seen <==> IdIn(emitted, id)
    ensures forall id :: id in seen + {point.id} <==> IdIn(emitted + [point], id)
  {
    forall id
      ensures IdIn(emitted + [point], id) <==> IdIn(emitted, id) || id == point.id
    {
      assert point in emitted + [point];
      if IdIn(emitted, id) {
        var e :| e in emitted && e.id == id;
        assert e in emitted + [point];
      }
    }
  }

  // All sources have reported their end and everything they delivered is out.
  ghost predicate Drained(k: Books)
    requires Sound(k)
  {
    && (forall s :: 0 <= s < |k.sources| ==> k.sources[s].ended)
    && IsMerged(k.m.delivered, k.m.emitted)
  }

  lemma ExhaustedIsDrained(k: Books)
    requires Sound(k) && forall s :: 0 <= s < |k.sources| ==> k.exhausted[s]
    ensures Drained(k)
  {
    forall x
      ensures x in k.m.emitted <==> exists s :: 0 <= s < |k.m.delivered| && x in k.m.delivered[s]
    {
      assert forall s :: 0 <= s < |k.m.delivered| ==> k.m.delivered[s][..Count(k.m, s)] == k.m.delivered[s];
      assert x in k.m.emitted <==> Emitted(k.m, x);
    }
  }

  // Everything a source has delivered or will deliver is in the pool.
  ghost predicate Fed(source: ScoreSource, delivered: seq<Scored>, pool: set<Scored>) {
    && (forall p :: p in delivered ==> p in pool)
    && forall i, p :: 0 <= i < |source.replies| && source.replies[i].Ok? && p in source.replies[i].value.points ==>
       p in pool
  }

  ghost predicate FedAll(sources: seq<ScoreSource>, delivered: seq<seq<Scored>>, pool: set<Scored>) {
    |sources| == |delivered| && forall s :: 0 <= s < |sources| ==> Fed(sources[s], delivered[s], pool)
  }

  lemma FedRead(source: ScoreSource, delivered: seq<Scored>, pool: set<Scored>)
    requires Fed(source, delivered, pool) && source.replies != [] && source.replies[0].Ok?
    ensures
      var batch := source.replies[0].value;
      Fed(ScoreSource(source.replies[1..], batch.points, batch.exhausted), delivered + batch.points, pool)
  {
    var rest := source.replies[1..];
    assert forall i :: 0 <= i < |rest| ==> rest[i] == source.replies[i + 1];
  }

  // So only so much can be emitted.
  lemma EmittedFits(k: Books, pool: set<Scored>)
    requires Sound(k) && FedAll(k.sources, k.m.delivered, pool)
    ensures |k.m.emitted| <= |pool|
  {
    forall x | x in k.m.emitted ensures x in pool {
      assert Emitted(k.m, x);
      var s :| 0 <= s < |k.m.taken| && x in k.m.delivered[s][..Count(k.m, s)];
      assert Fed(k.sources[s], k.m.delivered[s], pool);
      assert x in k.m.delivered[s];
    }
    RankedSize(k.m.emitted, pool);
  }

  ghost function PointsOf(replies: seq<Result<ScoreBatch, Error>>): set<Scored> {
    set i, p | 0 <= i < |replies| && replies[i].Ok? && p in replies[i].value.points :: p
  }

  ghost function PoolOf(replies: seq<seq<Result<ScoreBatch, Error>>>): set<Scored> {
    set s, p | 0 <= s < |replies| && p in PointsOf(replies[s]) :: p
  }

  lemma AllFed(replies: seq<seq<Result<ScoreBatch, Error>>>)
    ensures FedAll(seq(|replies|, s requires 0 <= s < |replies| => ScoreSource(replies[s], [], false)),
                   seq(|replies|, _ => []), PoolOf(replies))
  {
    forall s, i, p | 0 <= s < |replies| && 0 <= i < |replies[s]| && replies[s][i].Ok? && p in replies[s][i].value.points
      ensures p in PoolOf(replies)
    {
      assert p in PointsOf(replies[s]);
    }
  }

  // ---------------------------------------------------------------------
  // What sources have told, whatever they are

  // All points that replies deliver up to the end they report, if none before fails.
  ghost function Yield(replies: seq<Result<ScoreBatch, Error>>): Option<seq<Scored>> {
    if replies == [] || replies[0].Err? then None else
    var batch := replies[0].value;
    if batch.exhausted then Some(batch.points) else Before(batch.points, Yield(replies[1..]))
  }

  ghost function Before(points: seq<Scored>, rest: Option<seq<Scored>>): Option<seq<Scored>> {
    if rest.Some? then Some(points + rest.value) else None
  }

  // What a source delivered and what it will deliver is what its replies yield.
  ghost predicate Told(given: seq<Result<ScoreBatch, Error>>, source: ScoreSource, delivered: seq<Scored>) {
    Yield(given) == if source.ended then Some(delivered) else Before(delivered, Yield(source.replies))
  }

  ghost predicate ToldAll(given: seq<seq<Result<ScoreBatch, Error>>>, sources: seq<ScoreSource>,
                          delivered: seq<seq<Scored>>) {
    && |given| == |sources| == |delivered|
    && forall s :: 0 <= s < |given| ==> Told(given[s], sources[s], delivered[s])
  }

  lemma ToldRead(given: seq<Result<ScoreBatch, Error>>, source: ScoreSource, delivered: seq<Scored>)
    requires Told(given, source, delivered) && !source.ended && source.replies != [] && source.replies[0].Ok?
    ensures
      var batch := source.replies[0].value;
      Told(given, ScoreSource(source.replies[1..], batch.points, batch.exhausted), delivered + batch.points)
  {
    var batch, rest := source.replies[0].value, Yield(source.replies[1..]);
    if !batch.exhausted && rest.Some? {
      assert delivered + (batch.points + rest.value) == delivered + batch.points + rest.value;
    }
  }

  lemma ToldNothing(replies: seq<Result<ScoreBatch, Error>>)
    ensures Told(replies, ScoreSource(replies, [], false), [])
  {
    var all := Yield(replies);
    if all.Some? { assert [] + all.value == all.value; }
  }

  // The heap of waiting heads holds at most one entry a source, so it is kept
  // as one slot a source.
  class KWayExactScoreStream {
    var sources: seq<ScoreSource>
    const refillSize: nat
    var pending: seq<Option<Scored>>
    var previous: seq<Option<Scored>>
    var refillSource: Option<nat>
    var seen: set<PointId>
    var sourcePulls: seq<nat>
    var sourceExhausted: seq<bool>
    var pointsEmitted: nat
    var terminalError: Option<Error>
    ghost var delivered: seq<seq<Scored>>
    ghost var emitted: seq<Scored>
    ghost const given: seq<seq<Result<ScoreBatch, Error>>>
    ghost const pool: set<Scored>

    ghost function Book(): Books
      reads this
    {
      Books(Ledger(delivered, sourcePulls, pending, emitted), sources, previous, sourceExhausted, seen)
    }

    ghost predicate Valid()
      reads this
    {
      refillSize > 0 && Sound(Book()) && pointsEmitted == |emitted|
    }

    ghost predicate Ready()
      requires Valid()
      reads this
    {
      terminalError.None? && Rested(Book(), refillSource)
    }

    ghost predicate Delivers(lists: seq<seq<Scored>>)
      requires Valid()
      reads this
    {
      Honest(Book(), lists, refillSize)
    }

    ghost predicate Pooled()
      reads `sources, `delivered
    {
      FedAll(sources, delivered, pool) && ToldAll(given, sources, delivered)
    }

    // Reads one batch of a due source whose buffer is empty.
    method ReadBatch(source: nat, ghost lists: seq<seq<Scored>>) returns (r: Result<(), Error>)
      requires Valid() && Due(Book(), source) && sources[source].buffer == [] && !sources[source].ended
      modifies `sources, `delivered
      ensures Valid() && |sources| == |old(sources)| && Due(Book(), source)
      ensures r.Ok? ==> sources[source].buffer == [] ==> sources[source].ended
      ensures old(Delivers(lists)) ==> r.Ok? && Delivers(lists)
      ensures old(Pooled()) ==> Pooled()
    {
      if Delivers(lists) {
        HonestRead(Book(), source, refillSize, lists);
      }
      var next := Accept(sources[source], refillSize, previous[source], seen);
      if next.Err? {
        return Err(next.error);
      }
      ReadStep(Book(), source, next.value, refillSize, lists);
      if Pooled() {
        FedRead(sources[source], delivered[source], pool);
        ToldRead(given[source], sources[source], delivered[source]);
      }
      ghost var book := AfterRead(Book(), source, next.value);
      sources := sources[source := next.value];
      delivered := delivered[source := delivered[source] + next.value.buffer];
      assert Book() == book;
      r := Ok(());
    }

    // Makes the first buffered point of a due source its waiting head.
    method TakeFront(source: nat, ghost lists: seq<seq<Scored>>) returns (r: Result<(), Error>)
      requires Valid() && Due(Book(), source) && sources[source].buffer != []
      modifies `sources, `sourcePulls, `previous, `pending
      ensures Valid() && |sources| == |old(sources)|
      ensures r.Ok? && pending == old(pending)[source := pending[source]] && pending[source].Some?
      ensures old(Delivers(lists)) ==> Delivers(lists)
      ensures old(Pooled()) ==> Pooled()
    {
      TakeInOrder(Book(), source);
      TakeStep(Book(), source, refillSize, lists);
      var point := sources[source].buffer[0];
      if previous[source].Some? && Precedes(point, previous[source].value) {
        return Err(Validation);
      }
      Shift(source);
      r := Ok(());
    }

    method Shift(source: nat)
      requires source < |sources| == |previous| == |sourcePulls| == |pending| && sources[source].buffer != []
      modifies `sources, `sourcePulls, `previous, `pending
      ensures Book() == AfterTake(old(Book()), source)
      ensures old(Pooled()) ==> Pooled()
    {
      var point := sources[source].buffer[0];
      sources := sources[source := sources[source].(buffer := sources[source].buffer[1..])];
      sourcePulls := sourcePulls[source := sourcePulls[source] + 1];
      previous := previous[source := Some(point)];
      pending := pending[source := Some(point)];
    }

    // Gives a due source a waiting head, or notes its end.
    method Refill(source: nat, ghost lists: seq<seq<Scored>>) returns (r: Result<(), Error>)
      requires Valid() && source < |sources| && (sourceExhausted[source] || Due(Book(), source))
      modifies `sources, `delivered, `sourcePulls, `previous, `pending, `sourceExhausted
      ensures Valid() && |sources| == |old(sources)|
      ensures r.Ok? ==> pending[source].Some? || sourceExhausted[source]
      ensures pending == old(pending)[source := pending[source]]
      ensures sourceExhausted == old(sourceExhausted)[source := sourceExhausted[source]]
      ensures old(Delivers(lists)) ==> r.Ok? && Delivers(lists)
      ensures old(Pooled()) ==> Pooled()
    {
      if sourceExhausted[source] {
        return Ok(());
      }
      if sources[source].buffer == [] && !sources[source].ended {
        var read := ReadBatch(source, lists);
        if read.Err? {
          return Err(read.error);
        }
      }
      if sources[source].buffer == [] {
        NoteEnd(source, lists);
        return Ok(());
      }
      r := TakeFront(source, lists);
    }

    method NoteEnd(source: nat, ghost lists: seq<seq<Scored>>)
      requires Valid() && Due(Book(), source) && sources[source].buffer == [] && sources[source].ended
      modifies `sourceExhausted
      ensures Valid() && sourceExhausted == old(sourceExhausted)[source := true]
      ensures old(Delivers(lists)) ==> Delivers(lists)
    {
      assert |delivered[source][sourcePulls[source]..]| == 0;
      sourceExhausted := sourceExhausted[source := true];
    }

    method RefillLast(ghost lists: seq<seq<Scored>>) returns (r: Result<(), Error>)
      requires Valid() && Ready()
      modifies `sources, `delivered, `sourcePulls, `previous, `pending, `sourceExhausted, `refillSource
      ensures Valid() && refillSource.None?
      ensures r.Ok? ==> AllLoaded(Book())
      ensures old(Delivers(lists)) ==> r.Ok? && Delivers(lists)
      ensures old(Pooled()) ==> Pooled()
    {
      if refillSource.None? {
        return Ok(());
      }
      var source := refillSource.value;
      refillSource := None;
      r := Refill(source, lists);
    }

    // Emits the best waiting head after refilling the source emitted last.
    method NextInner(ghost lists: seq<seq<Scored>>) returns (r: Result<Option<Scored>, Error>)
      requires Valid() && Ready()
      modifies `sources, `delivered, `sourcePulls, `previous, `pending, `sourceExhausted
      modifies `refillSource, `seen, `emitted, `pointsEmitted
      ensures r.Ok? ==> Valid() && Ready()
      ensures r.Ok? ==> emitted == old(emitted) + if r.value.Some? then [r.value.value] else []
      ensures r.Ok? && r.value.None? ==> Drained(Book())
      ensures old(Delivers(lists)) ==> r.Ok? && Delivers(lists)
      ensures old(Pooled()) ==> Pooled()
    {
      var refilled := RefillLast(lists);
      if refilled.Err? {
        return Err(refilled.error);
      }
      var b := PopIndex(pending);
      if b.None? {
        ExhaustedIsDrained(Book());
        return Ok(None);
      }
      r := EmitHead(b.value, lists);
    }

    // The head goes out, unless its identity went out before.
    method EmitHead(b: nat, ghost lists: seq<seq<Scored>>) returns (r: Result<Option<Scored>, Error>)
      requires Valid() && Best(Book().m, b) && AllLoaded(Book()) && terminalError.None?
      modifies `pending, `refillSource, `seen, `emitted, `pointsEmitted
      ensures r.Ok? ==> Valid() && Ready()
      ensures r.Ok? ==> r.value.Some? && emitted == old(emitted) + [r.value.value]
      ensures old(Delivers(lists)) ==> r.Ok? && Delivers(lists)
    {
      ghost var k := Book();
      EmitSteps(k, b, refillSize, lists);
      var point := pending[b].value;
      refillSource := Some(b);
      if point.id in seen {
        return Err(Validation);
      }
      Release(b);
      assert Book() == AfterEmit(k, b);
      r := Ok(Some(point));
    }

    // The waiting head of a source goes out.
    method Release(b: nat)
      requires b < |pending| && pending[b].Some?
      modifies `pending, `seen, `emitted, `pointsEmitted
      ensures Book() == AfterEmit(old(Book()), b) && pointsEmitted == old(pointsEmitted) + 1
    {
      seen := seen + {pending[b].value.id};
      emitted := emitted + [pending[b].value];
      pending := pending[b := None];
      pointsEmitted := pointsEmitted + 1;
    }

    constructor Create(sources: seq<ScoreSource>, refillSize: nat, ghost given: seq<seq<Result<ScoreBatch, Error>>>)
      requires refillSize > 0
      requires forall s :: 0 <= s < |sources| ==> sources[s].buffer == [] && !sources[s].ended
      ensures Valid() && this.sources == sources && this.refillSize == refillSize
      ensures this.given == given && this.pool == PoolOf(given)
      ensures emitted == [] && terminalError.None? && refillSource.None?
      ensures delivered == seq(|sources|, _ => [])
      ensures forall s :: 0 <= s < |sources| ==> pending[s].None? && !sourceExhausted[s]
    {
      this.sources, this.refillSize, this.given, this.pool := sources, refillSize, given, PoolOf(given);
      pending := seq(|sources|, _ => None);
      previous := seq(|sources|, _ => None);
      refillSource, seen, terminalError := None, {}, None;
      sourcePulls := seq(|sources|, _ => 0);
      sourceExhausted := seq(|sources|, _ => false);
      pointsEmitted := 0;
      delivered := seq(|sources|, _ => []);
      emitted := [];
    }

    // Opens the merge: every source is asked for its first point.
    static method New(replies: seq<seq<Result<ScoreBatch, Error>>>, refillSize: nat, ghost lists: seq<seq<Scored>>)
        returns (r: Result<KWayExactScoreStream, Error>)
      ensures replies == [] || refillSize == 0 ==> r.Err?
      ensures r.Ok? ==>
        && fresh(r.value) && r.value.Valid() && r.value.Ready() && r.value.Pooled() && r.value.emitted == []
        && r.value.given == replies
      ensures replies != [] && refillSize > 0 && HonestAll(replies, lists, refillSize) ==>
        r.Ok? && r.value.Delivers(lists)
    {
      if replies == [] || refillSize == 0 {
        return Err(Validation);
      }
      var sources := seq(|replies|, s requires 0 <= s < |replies| => ScoreSource(replies[s], [], false));
      var stream := new KWayExactScoreStream.Create(sources, refillSize, replies);
      AllFed(replies);
      forall s | 0 <= s < |replies| ensures Told(replies[s], sources[s], []) { ToldNothing(replies[s]); }
      var asked := stream.AskAll(lists);
      r := if asked.Ok? then Ok(stream) else Err(asked.error);
    }

    method AskAll(ghost lists: seq<seq<Scored>>) returns (r: Result<(), Error>)
      requires Valid() && emitted == [] && terminalError.None? && refillSource.None?
      requires forall t :: 0 <= t < |sources| ==> pending[t].None? && !sourceExhausted[t]
      modifies this
      ensures r.Ok? ==> Valid() && Ready() && emitted == []
      ensures old(Delivers(lists)) ==> r.Ok? && Delivers(lists)
      ensures old(Pooled()) ==> Pooled()
    {
      for s := 0 to |sources|
        invariant Valid() && |sources| == |old(sources)|
        invariant emitted == [] && terminalError.None? && refillSource.None?
        invariant forall t :: 0 <= t < s ==> pending[t].Some? || sourceExhausted[t]
        invariant forall t :: s <= t < |sources| ==> pending[t].None? && !sourceExhausted[t]
        invariant old(Delivers(lists)) ==> Delivers(lists)
        invariant old(Pooled()) ==> Pooled()
      {
        var refilled := Refill(s, lists);
        if refilled.Err? {
          return Err(refilled.error);
        }
      }
      r := Ok(());
    }

    ghost predicate Usable()
      reads this
    {
      terminalError.None? ==> Valid() && Ready()
    }

    // Forgets everything pending; from now on only the error is returned.
    method Fail(error: Error)
      modifies `terminalError, `pending, `refillSource
      ensures terminalError == Some(error) && pending == [] && refillSource.None?
    {
      terminalError := Some(error);
      pending := [];
      refillSource := None;
    }

    // One contiguous batch of the channel order. A failure commits nothing to
    // the caller and is final; the end is reported only once every source has
    // reported its own and all delivered points are out, in ranked order.
    method NextRankBatch(max: nat, ghost lists: seq<seq<Scored>>) returns (r: Result<RankBatch, Error>)
      requires Usable()
      modifies this
      ensures Usable()
      ensures max == 0 ==> r.Err? && terminalError == old(terminalError)
      ensures max > 0 && old(terminalError).Some? ==>
        r == Err(old(terminalError).value) && terminalError == old(terminalError)
      ensures max > 0 && r.Err? ==> terminalError == Some(r.error)
      ensures r.Ok? ==>
        && terminalError.None? && old(terminalError).None?
        && old(emitted) <= emitted
        && r.value.startRank == |old(emitted)|
        && r.value.ids == Ids(emitted[|old(emitted)|..])
        && |r.value.ids| <= max && (r.value.exhausted <==> |r.value.ids| < max)
        && (r.value.exhausted ==> Drained(Book()))
      ensures max > 0 && old(terminalError.None? && Delivers(lists)) ==> r.Ok? && Delivers(lists)
      ensures old(Pooled()) ==> Pooled()
    {
      if max == 0 {
        return Err(Validation);
      }
      if terminalError.Some? {
        return Err(terminalError.value);
      }
      r := CollectRanks(max, lists);
      if r.Err? { Fail(r.error); }
    }

    ghost predicate Collected(start: seq<Scored>, ids: seq<PointId>)
      reads this
    {
      start <= emitted && ids == Ids(emitted[|start|..])
    }

    method CollectRanks(max: nat, ghost lists: seq<seq<Scored>>) returns (r: Result<RankBatch, Error>)
      requires Valid() && Ready() && max > 0
      modifies this
      ensures r.Ok? ==>
        && Valid() && Ready() && r.value.startRank == |old(emitted)| && Collected(old(emitted), r.value.ids)
        && |r.value.ids| <= max && (r.value.exhausted <==> |r.value.ids| < max)
        && (r.value.exhausted ==> Drained(Book()))
      ensures old(Delivers(lists)) ==> r.Ok? && Delivers(lists)
      ensures old(Pooled()) ==> Pooled()
    {
      var startRank := pointsEmitted;
      var ids: seq<PointId> := [];
      ghost var start := emitted;
      while |ids| < max
        invariant Valid() && Ready() && |ids| <= max && Collected(start, ids)
        invariant old(Delivers(lists)) ==> Delivers(lists)
        invariant old(Pooled()) ==> Pooled()
        decreases max - |ids|
      {
        ghost var before := emitted;
        var next := NextInner(lists);
        if next.Err? { return Err(next.error); }
        if next.value.None? { return Ok(RankBatch(startRank, ids, true)); }
        CollectedOne(start, before, ids, next.value.value);
        ids := ids + [next.value.value.id];
      }
      r := Ok(RankBatch(startRank, ids, false));
    }
  }

  lemma CollectedOne(start: seq<Scored>, before: seq<Scored>, ids: seq<PointId>, next: Scored)
    requires start <= before && ids == Ids(before[|start|..])
    ensures start <= before + [next] && ids + [next.id] == Ids((before + [next])[|start|..])
  {
    assert (before + [next])[|start|..] == before[|start|..] + [next];
  }

  // For sources that deliver fixed ranked lists over disjoint identities, the
  // emitted points are a prefix of the merged order, all of it at the end.
  lemma DeliveredOrder(k: Books, lists: seq<seq<Scored>>, size: nat, refill: Option<nat>, merged: seq<Scored>)
    requires Sound(k) && Honest(k, lists, size) && IsMerged(lists, merged) && Rested(k, refill)
    ensures k.m.emitted <= merged
    ensures Drained(k) ==> k.m.emitted == merged
  {
    forall s | 0 <= s < |lists|
      ensures
        || k.m.pending[s].Some?
        || k.m.taken[s] == |lists[s]|
        || (k.m.taken[s] > 0 && k.m.emitted != [] &&
            k.m.delivered[s][k.m.taken[s] - 1] == k.m.emitted[|k.m.emitted| - 1])
    {
      assert SourceOk(k.sources[s], k.m.delivered[s], k.m.taken[s], k.m.pending[s], k.previous[s], k.exhausted[s]);
    }
    EmittedIsPrefix(k.m, lists, merged);
    if Drained(k) {
      assert forall s :: 0 <= s < |lists| ==> k.m.delivered[s] == lists[s];
      assert k.m.delivered == lists;
      RankedUnique(k.m.emitted, merged);
    }
  }

  // Every source reports its end without a failure, and this is the merged order of
  // all they deliver.
  ghost predicate AllTold(given: seq<seq<Result<ScoreBatch, Error>>>, order: seq<Scored>) {
    exists delivered: seq<seq<Scored>> :: ToldToTheEnd(given, delivered) && IsMerged(delivered, order)
  }

  ghost predicate ToldToTheEnd(given: seq<seq<Result<ScoreBatch, Error>>>, delivered: seq<seq<Scored>>) {
    |given| == |delivered| && forall s :: 0 <= s < |given| ==> Yield(given[s]) == Some(delivered[s])
  }

  // No failure is mistaken for an end.
  lemma EndIsTold(k: Books, given: seq<seq<Result<ScoreBatch, Error>>>)
    requires Sound(k) && Drained(k) && ToldAll(given, k.sources, k.m.delivered)
    ensures AllTold(given, k.m.emitted)
  {
    assert ToldToTheEnd(given, k.m.delivered);
  }

  // The reply to a pull of at most max ranks is then the next stretch of the
  // merged order, whatever the batching below.
  lemma ReplyIsNextStretch(merged: seq<Scored>, before: seq<Scored>, emitted: seq<Scored>, batch: RankBatch, max: nat)
    requires before <= emitted <= merged
    requires batch.startRank == |before| && batch.ids == Ids(emitted[|before|..]) && |batch.ids| <= max
    requires batch.exhausted <==> |batch.ids| < max
    requires batch.exhausted ==> emitted == merged
    ensures batch == RankReply(Ids(merged), |before|, max)
  {
    assert emitted == merged[..|emitted|];
    assert batch.ids == Ids(merged)[|before|..|emitted|];
  }
}
