// Recoverable exact fusion session: pulls channels in whatever order its
// scheduler likes until the Top-K is settled.
//
// Sources: lib/segment/src/common/reciprocal_rank_fusion/session.rs, types.rs
module RrfSession {
  import opened Common
  import opened RrfScoring
  import opened RrfCertificate
  import opened RrfState
  import opened RrfTightness
  import opened RrfFairness
  import opened RrfRounds

  datatype Policy = Policy(
    warmupCheckInterval: Option<nat>,
    exhaustiveAfterPullsPerSource: Option<nat>,
    scheduler: Scheduler,
    fairnessAfterActionsPerSource: Option<nat>)

  const MIN_CERTIFICATION_INTERVAL: nat := 64
  const MAX_CERTIFICATION_INTERVAL: nat := 1024

  class DynamicRrfSession {
    var sources: seq<Source>
    const batchSize: nat
    const state: DynamicRrfState
    const costs: seq<real>
    const policy: Policy
    var pulls: seq<nat>
    var history: Channels
    var lastAdvanced: seq<nat>
    var schedule: seq<nat>
    var competitiveMissing: seq<nat>
    var warmupPulls: nat
    var totalPulls: nat
    var advanceActions: nat
    var pullsSinceCheck: nat
    var certificationChecks: nat
    var forceCheck: bool
    var exhaustedOrder: Option<seq<PointId>>

    ghost predicate Valid()
      reads this, state
    {
      var n := |state.weights|;
      && state.Valid() && history == state.observed && batchSize > 0
      && |sources| == |pulls| == |lastAdvanced| == |competitiveMissing| == |costs| == n
      && (forall s :: 0 <= s < n ==> pulls[s] == |history[s]| && lastAdvanced[s] <= advanceActions && costs[s] > 0.0)
      && (exhaustedOrder.Some? ==>
            && state.AllExhausted()
            && IsFusedPrefix(state.F(), history, exhaustedOrder.value)
            && IsComplete(state.F(), history, exhaustedOrder.value))
    }

    constructor Create(sources: seq<Source>, batchSize: nat, state: DynamicRrfState, costs: seq<real>, policy: Policy)
      requires state.Valid() && batchSize > 0
      requires |sources| == |costs| == |state.weights| && forall s :: 0 <= s < |costs| ==> costs[s] > 0.0
      requires state.observed == seq(|sources|, _ => [])
      ensures Valid() && this.sources == sources && this.state == state && this.batchSize == batchSize
      ensures exhaustedOrder.None? && this.policy == policy && this.costs == costs
      ensures Now() == Moment(sources, seq(|sources|, _ => []), state.exhausted, seq(|sources|, _ => 0), 0, 0, 0,
                              true, 0)
      ensures warmupPulls == state.topK * |sources| * 2 && schedule == []
      ensures forall m :: m in competitiveMissing ==> m == Max(state.topK, 1)
    {
      this.sources, this.batchSize, this.state, this.costs, this.policy := sources, batchSize, state, costs, policy;
      pulls := seq(|sources|, _ => 0);
      history := seq(|sources|, _ => []);
      lastAdvanced := seq(|sources|, _ => 0);
      schedule := [];
      var demand := if state.topK == 0 then 1 else state.topK;
      competitiveMissing := seq(|sources|, _ => demand);
      warmupPulls := state.topK * |sources| * 2;
      totalPulls, advanceActions, pullsSinceCheck, certificationChecks := 0, 0, 0, 0;
      forceCheck, exhaustedOrder := true, None;
    }

    static method New(arith: Arithmetic, sources: seq<Source>, batchSize: nat, topK: nat, rrfK: nat,
                      weights: Option<seq<real>>, costs: seq<real>, policy: Policy)
        returns (r: Result<DynamicRrfSession, Error>)
      requires Faithful(arith)
      ensures r.Ok? <==>
        && batchSize > 0 && sources != [] && rrfK > 0
        && policy.warmupCheckInterval != Some(0) && policy.exhaustiveAfterPullsPerSource != Some(0)
        && policy.fairnessAfterActionsPerSource != Some(0)
        && |costs| == |sources| && (forall c :: c in costs ==> c > 0.0)
        && (weights.Some? ==> |weights.value| == |sources| && forall w :: w in weights.value ==> w >= 0.0)
      ensures r.Ok? ==>
        var session := r.value;
        && fresh(session) && fresh(session.state) && session.Valid()
        && session.sources == sources && session.batchSize == batchSize && session.state.topK == topK
        && session.exhaustedOrder.None? && session.history == seq(|sources|, _ => [])
        && session.Now() == Moment(sources, session.history, seq(|sources|, _ => false), seq(|sources|, _ => 0),
                                   0, 0, 0, true, 0)
        && session.policy == policy && session.costs == costs && session.warmupPulls == topK * |sources| * 2
        && session.state.F() == Fusion(arith, rrfK, if weights.Some? then weights.value else seq(|sources|, _ => 1.0))
      ensures r.Ok? && policy.fairnessAfterActionsPerSource.Some? ==> r.value.IsFair()
    {
      if batchSize == 0 || policy.warmupCheckInterval == Some(0) || policy.exhaustiveAfterPullsPerSource == Some(0)
         || policy.fairnessAfterActionsPerSource == Some(0) {
        return Err(Validation);
      }
      if |costs| != |sources| || exists c :: c in costs && c <= 0.0 {
        return Err(Validation);
      }
      assert forall s :: 0 <= s < |costs| ==> costs[s] in costs;
      var state := DynamicRrfState.New(arith, |sources|, topK, rrfK, weights);
      if state.Err? {
        return Err(state.error);
      }
      var session := new DynamicRrfSession.Create(sources, batchSize, state.value, costs, policy);
      session.StartsFair();
      r := Ok(session);
    }

    // The sources still to be read deliver exactly these channels.
    ghost predicate Honest(channels: Channels)
      requires Valid()
      reads this, state
    {
      HonestSources(state.F(), sources, history, state.exhausted, channels, batchSize)
    }

    // Before anything is read, honest sources are all that takes.
    lemma StartsHonest(channels: Channels)
      requires Valid() && history == seq(|sources|, _ => []) && state.exhausted == seq(|sources|, _ => false)
      requires |channels| == |sources|
      requires forall s :: 0 <= s < |sources| ==>
        Distinct(channels[s]) && HonestSource(sources[s], 0, channels[s], batchSize)
      ensures Honest(channels)
    {
    }

    ghost function Remaining(): nat
      requires Valid()
      reads this, state
    {
      TotalWork(sources, state.exhausted, |sources|)
    }

    // A result that no completion of what has been read can contradict.
    ghost predicate Exact(execution: Execution)
      requires Valid()
      reads this, state
    {
      && (forall channels :: Completes(state.F(), history, state.exhausted, channels) ==>
            IsTopK(state.F(), channels, state.topK, execution.ids))
      && execution.sourcePulls == pulls
      && execution.sourceExhausted == state.exhausted
      && execution.certificationChecks == certificationChecks
      && (execution.stopReason.AllSourcesExhausted? <==> state.AllExhausted())
    }

    ghost function Now(): Moment
      reads this, state
    {
      Moment(sources, history, state.exhausted, lastAdvanced, advanceActions, totalPulls, pullsSinceCheck, forceCheck,
             certificationChecks)
    }

    ghost function Given(minimumPulls: seq<Option<nat>>): Setting
      reads this, state
    {
      var n := |sources|;
      Setting(state.F(), state.topK, batchSize, costs, policy.scheduler,
              if policy.warmupCheckInterval.Some? then policy.warmupCheckInterval.value else n, warmupPulls,
              if policy.exhaustiveAfterPullsPerSource.Some? then Some(policy.exhaustiveAfterPullsPerSource.value * n)
              else None,
              if policy.fairnessAfterActionsPerSource.Some? then Some(policy.fairnessAfterActionsPerSource.value * n)
              else None,
              minimumPulls)
    }

    // Asks the state for a settled Top-K; refreshes the advisory competitor
    // snapshot when there is none. The snapshot only steers the scheduler, so
    // it may hold anything.
    method Check(ghost start: Moment) returns (fixed: Option<Execution>)
      requires Valid() && start == Now()
      modifies `certificationChecks, `competitiveMissing
      ensures Valid() && Now() == start.(checks := start.checks + 1)
      ensures fixed.Some? ==> Exact(fixed.value)
      ensures fixed.None? <==> Unanswered(state.F(), history, state.exhausted, state.topK)
    {
      certificationChecks := certificationChecks + 1;
      var ids := state.FixedTopK();
      if ids.Some? {
        var reason := if state.AllExhausted() then AllSourcesExhausted else TopKFixed;
        return Some(Execution(ids.value, pulls, state.exhausted, certificationChecks, reason));
      }
      var snapshot: seq<nat> :| |snapshot| == |sources|;
      competitiveMissing := snapshot;
      fixed := None;
    }

    function FairnessWindow(): Option<nat>
      reads this
    {
      if policy.fairnessAfterActionsPerSource.Some?
      then Some(policy.fairnessAfterActionsPerSource.value * |sources|) else None
    }

    // What the scheduler sees of the sources.
    function Sight(minimumPulls: seq<Option<nat>>): (view: View)
      requires Valid() && |minimumPulls| == |sources|
      reads this, state
      ensures Sees(Given(minimumPulls), Now(), competitiveMissing, view)
    {
      assert state.nextPositions == pulls;
      ViewSees(Given(minimumPulls), Now(), competitiveMissing, pulls);
      ViewOf(Standing(state.arith, state.rrfK, state.weights, costs, state.nextPositions, competitiveMissing),
             policy.scheduler, FairnessWindow(), EligibleFlags(state.exhausted, pulls, minimumPulls),
             WaitsSince(lastAdvanced, advanceActions))
    }

    // The longest waiting overdue source, the lowest index among equals; with
    // none overdue, the one of highest priority.
    method SelectSource(minimumPulls: seq<Option<nat>>, ghost w: Setting, ghost m: Moment)
        returns (source: nat, ghost view: View)
      requires Valid() && |minimumPulls| == |sources| && w == Given(minimumPulls) && m == Now()
      requires SomeLive(w, m)
      ensures Sees(w, m, competitiveMissing, view) && Chosen(view, source)
    {
      var seen := Sight(minimumPulls);
      SomeIsSeen(w, m, competitiveMissing, seen);
      source := Choose(seen);
      view := seen;
    }

    // Hands a batch to the state and keeps the books.
    method Absorb(source: nat, batch: RankBatch) returns (r: Result<(), Error>)
      requires Valid() && source < |sources| && exhaustedOrder.None?
      modifies state`points, state`observed, state`nextPositions, state`exhausted
      modifies `pulls, `history, `totalPulls, `pullsSinceCheck, `forceCheck
      ensures Valid()
      ensures r.Ok? <==> Acceptable(old(history), old(state.exhausted), source, batch)
      ensures r.Err? ==> r.error == Validation && history == old(history) && state.exhausted == old(state.exhausted)
      ensures r.Ok? ==> history == Append(old(history), source, batch.ids)
      ensures r.Ok? ==> state.exhausted == old(state.exhausted)[source := batch.exhausted]
      ensures totalPulls - old(totalPulls) == pullsSinceCheck - old(pullsSinceCheck) == if r.Ok? then |batch.ids| else 0
      ensures forceCheck <==> old(forceCheck) || (r.Ok? && batch.exhausted)
    {
      var observed := state.ObserveBatch(source, batch);
      if observed.Err? {
        return Err(observed.error);
      }
      pulls := pulls[source := pulls[source] + |batch.ids|];
      history := Append(history, source, batch.ids);
      totalPulls := totalPulls + |batch.ids|;
      pullsSinceCheck := pullsSinceCheck + |batch.ids|;
      if batch.exhausted {
        forceCheck := true;
      }
      r := Ok(());
    }

    // Reads one reply of one live source.
    method PullSource(source: nat) returns (r: Result<(), Error>)
      requires Valid() && source < |sources| && !state.exhausted[source]
      modifies state`points, state`observed, state`nextPositions, state`exhausted
      modifies `sources, `pulls, `history, `totalPulls, `pullsSinceCheck, `forceCheck
      modifies `schedule, `advanceActions, `lastAdvanced
      ensures Valid()
      ensures PullEffect(batchSize, source, old(sources), old(history), old(state.exhausted),
                         sources, history, state.exhausted, r.Ok?)
      ensures r.Err? ==> r.error == old(FailureOf(sources[source], |history[source]|))
      ensures advanceActions == old(advanceActions) + 1 && schedule == old(schedule) + [source]
      ensures lastAdvanced == old(lastAdvanced)[source := advanceActions]
      ensures totalPulls - old(totalPulls) == pullsSinceCheck - old(pullsSinceCheck)
              == |history[source]| - |old(history)[source]|
      ensures forceCheck <==> old(forceCheck) || state.exhausted[source]
    {
      schedule := schedule + [source];
      advanceActions := advanceActions + 1;
      lastAdvanced := lastAdvanced[source := advanceActions];
      var rest, reply := Fetch(sources[source], pulls[source]);
      sources := sources[source := rest];
      if reply.Err? {
        return Err(reply.error);
      }
      if |reply.value.ids| > batchSize {
        return Err(Validation);
      }
      r := Absorb(source, reply.value);
    }

    // Fairness is on and has been kept so far.
    ghost predicate IsFair()
      requires Valid()
      reads this, state
    {
      var w := Given(Untargeted());
      HasWindow(w) && sources != [] && FairAt(w, Now())
    }

    lemma StartsFair()
      requires Valid() && advanceActions == 0 && sources != []
      ensures policy.fairnessAfterActionsPerSource.Some? && policy.fairnessAfterActionsPerSource.value > 0 ==> IsFair()
    {
      if policy.fairnessAfterActionsPerSource.Some? && policy.fairnessAfterActionsPerSource.value > 0 {
        Multiple(policy.fairnessAfterActionsPerSource.value, |sources|);
      }
    }

    // Pulls until the Top-K is settled or every source reached its target.
    // Whatever the policy, the costs, the advisory snapshots and the replies, a
    // settled result is exact; and if the sources deliver given channels, the
    // call neither fails nor loses its place in them.
    method AdvanceUntilEach(minimumPulls: seq<Option<nat>>, ghost channels: Channels)
        returns (r: Result<Advance, Error>, ghost moments: seq<Moment>)
      requires Valid()
      modifies this, state
      ensures Valid() && exhaustedOrder == old(exhaustedOrder) && state.topK == old(state.topK)
      ensures |minimumPulls| != |old(sources)| ==> r == Err(Validation) && Now() == old(Now())
      ensures |minimumPulls| == |old(sources)| ==> Call(old(Given(minimumPulls)), moments, old(Now()), r, Now())
      ensures r.Ok? && r.value.Fixed? ==> Exact(r.value.execution)
      ensures old(Honest(channels)) ==> Honest(channels) && (|minimumPulls| == |old(sources)| ==> r.Ok?)
      ensures old(IsFair()) && NoTargets(minimumPulls) ==> IsFair() && AllWait(old(Given(minimumPulls)), moments)
    {
      ghost var w, start := Given(minimumPulls), Now();
      if |minimumPulls| != |sources| {
        return Err(Validation), [];
      }
      r, moments := Advance(minimumPulls, w, start);
      if old(Honest(channels)) { CallIsHonest(w, moments, start, r, Now(), channels); }
      if old(IsFair()) && NoTargets(minimumPulls) {
        assert minimumPulls == Untargeted();
        CallIsFair(w, moments, start, r, Now());
      }
    }

    method Advance(minimumPulls: seq<Option<nat>>, ghost w: Setting, ghost start: Moment)
        returns (r: Result<Advance, Error>, ghost moments: seq<Moment>)
      requires Valid() && |minimumPulls| == |sources| && w == Given(minimumPulls) && start == Now()
      modifies this, state
      ensures Valid() && exhaustedOrder == old(exhaustedOrder) && Given(minimumPulls) == w
      ensures Call(w, moments, start, r, Now())
      ensures r.Ok? && r.value.Fixed? ==> Exact(r.value.execution)
    {
      moments := [start];
      while true
        invariant Valid() && exhaustedOrder == old(exhaustedOrder) && Given(minimumPulls) == w
          && |sources| == |minimumPulls|
        invariant moments != [] && moments[0] == start && moments[|moments| - 1] == Now() && Rounds(w, moments)
        decreases TotalWork(sources, state.exhausted, |sources|)
      {
        var step := Step(minimumPulls, w, Now());
        if step.Some? {
          return step.value, moments;
        }
        OneMoreRound(w, moments, Now());
        moments := moments + [Now()];
      }
    }

    // One round: certify when due, pause when due, otherwise pull one source.
    method Step(minimumPulls: seq<Option<nat>>, ghost w: Setting, ghost start: Moment)
        returns (r: Option<Result<Advance, Error>>)
      requires Valid() && |minimumPulls| == |sources| && w == Given(minimumPulls) && start == Now()
      modifies state`points, state`observed, state`nextPositions, state`exhausted
      modifies `sources, `pulls, `history, `totalPulls, `pullsSinceCheck, `forceCheck
      modifies `schedule, `advanceActions, `lastAdvanced, `certificationChecks, `competitiveMissing
      ensures Valid() && Given(minimumPulls) == w
      ensures r.Some? ==> Concludes(w, start, r.value, Now())
      ensures r.None? ==> Round(w, start, Now(), None) && Remaining() < old(Remaining())
      ensures r.Some? && r.value.Ok? && r.value.value.Fixed? ==> Exact(r.value.value.execution)
    {
      var settled := Settle(minimumPulls, w, start);
      if settled.Some? {
        return Some(Ok(settled.value));
      }
      var pulled := PullRound(minimumPulls, w, start);
      r := if pulled.Ok? then None else Some(Err(pulled.error));
    }

    // The rest of a round that does not end the call.
    method PullRound(minimumPulls: seq<Option<nat>>, ghost w: Setting, ghost start: Moment)
        returns (r: Result<(), Error>)
      requires Valid() && |minimumPulls| == |sources| && w == Given(minimumPulls)
      requires Shaped(w, start) && !Ends(w, start) && Now() == Checked(w, start)
      modifies state`points, state`observed, state`nextPositions, state`exhausted
      modifies `sources, `pulls, `history, `totalPulls, `pullsSinceCheck, `forceCheck
      modifies `schedule, `advanceActions, `lastAdvanced
      ensures Valid() && Given(minimumPulls) == w
      ensures Round(w, start, Now(), if r.Ok? then None else Some(r.error))
      ensures r.Ok? ==> Remaining() < old(Remaining())
    {
      ghost var checked, source, view := Now(), 0, View([], [], [], []);
      r, source, view := PullNext(minimumPulls, w, checked);
      OneRound(w, start, checked, Now(), source, competitiveMissing, view, if r.Ok? then None else Some(r.error));
      RoundIsHonest(w, start, Now(), if r.Ok? then None else Some(r.error), []);
    }

    // Certifies when due and at a pause.
    method Settle(minimumPulls: seq<Option<nat>>, ghost w: Setting, ghost start: Moment)
        returns (advance: Option<Advance>)
      requires Valid() && |minimumPulls| == |sources| && w == Given(minimumPulls) && start == Now()
      modifies `pullsSinceCheck, `forceCheck, `certificationChecks, `competitiveMissing
      ensures Valid()
      ensures advance.Some? <==> Ends(w, start)
      ensures advance.Some? ==> Concludes(w, start, Ok(advance.value), Now())
      ensures advance.None? ==> Now() == Checked(w, start)
      ensures advance.Some? && advance.value.Fixed? ==> Exact(advance.value.execution)
    {
      var settled := CheckIfDue(w, start);
      if settled.Some? {
        return Some(Fixed(settled.value));
      }
      var paused := AtPause(minimumPulls, w, start);
      if !paused {
        return None;
      }
      var fixed := Check(Checked(w, start));
      advance := Some(if fixed.Some? then Fixed(fixed.value) else Paused);
    }

    method AtPause(minimumPulls: seq<Option<nat>>, ghost w: Setting, ghost m: Moment) returns (paused: bool)
      requires Valid() && Shaped(w, m) && minimumPulls == w.targets
      requires m.history == history && m.exhausted == state.exhausted
      ensures paused <==> Reached(w, m)
    {
      paused :=
        && (exists s :: 0 <= s < |minimumPulls| && minimumPulls[s].Some?)
        && forall s :: 0 <= s < |minimumPulls| ==>
             minimumPulls[s].None? || pulls[s] >= minimumPulls[s].value || state.exhausted[s];
    }

    method CheckIfDue(ghost w: Setting, ghost start: Moment) returns (fixed: Option<Execution>)
      requires Valid() && |w.targets| == |sources| && w == Given(w.targets) && start == Now()
      modifies `pullsSinceCheck, `forceCheck, `certificationChecks, `competitiveMissing
      ensures Valid()
      ensures fixed.Some? <==> Due(w, start) && Answers(w, start)
      ensures fixed.Some? ==> Exact(fixed.value)
      ensures Now() == if fixed.Some? then start.(checks := start.checks + 1) else Checked(w, start)
    {
      var draining :=
        && policy.exhaustiveAfterPullsPerSource.Some?
        && totalPulls >= policy.exhaustiveAfterPullsPerSource.value * |sources|;
      var interval := Clamp(totalPulls / 8, MIN_CERTIFICATION_INTERVAL, MAX_CERTIFICATION_INTERVAL);
      if totalPulls <= warmupPulls {
        interval := if policy.warmupCheckInterval.Some? then policy.warmupCheckInterval.value else |sources|;
      }
      fixed := None;
      if state.AllExhausted() || (!draining && (forceCheck || pullsSinceCheck >= interval)) {
        fixed := Check(start);
        if fixed.None? {
          pullsSinceCheck := 0;
          forceCheck := false;
        }
      }
    }

    // Pulls the source the scheduler prefers.
    method PullNext(minimumPulls: seq<Option<nat>>, ghost w: Setting, ghost start: Moment)
        returns (r: Result<(), Error>, ghost source: nat, ghost view: View)
      requires Valid() && |minimumPulls| == |sources| && w == Given(minimumPulls) && start == Now()
      requires !state.AllExhausted() && !Reached(w, start)
      modifies state`points, state`observed, state`nextPositions, state`exhausted
      modifies `sources, `pulls, `history, `totalPulls, `pullsSinceCheck, `forceCheck
      modifies `schedule, `advanceActions, `lastAdvanced
      ensures Valid() && source < |sources|
      ensures Sees(w, start, competitiveMissing, view) && Chosen(view, source)
      ensures Fetched(start, Now(), batchSize, source, if r.Ok? then None else Some(r.error))
    {
      SomeIsLive(w, start);
      var chosen;
      chosen, view := SelectSource(minimumPulls, w, start);
      ChosenIsLive(w, start, competitiveMissing, view, chosen);
      source := chosen;
      r := PullSource(chosen);
    }

    ghost function Untargeted(): (targets: seq<Option<nat>>)
      reads this
      ensures |targets| == |sources| && NoTargets(targets)
    {
      seq(|sources|, _ => None)
    }

    ghost function Outcome(r: Result<Execution, Error>): Result<Advance, Error> {
      if r.Ok? then Ok(Fixed(r.value)) else Err(r.error)
    }

    // Without pause targets the call ends with a settled Top-K, and with
    // fairness on no live source waited too long at any time.
    method RunToCompletion(ghost channels: Channels) returns (r: Result<Execution, Error>, ghost moments: seq<Moment>)
      requires Valid()
      modifies this, state
      ensures Valid() && exhaustedOrder == old(exhaustedOrder) && state.topK == old(state.topK)
      ensures r.Ok? ==> Exact(r.value)
      ensures Call(old(Given(Untargeted())), moments, old(Now()), Outcome(r), Now())
      ensures old(Honest(channels)) ==>
        Honest(channels) && r.Ok? && IsTopK(state.F(), channels, state.topK, r.value.ids)
      ensures old(IsFair()) ==> IsFair() && AllWait(old(Given(Untargeted())), moments)
    {
      var targets: seq<Option<nat>> := seq(|sources|, _ => None);
      var advance;
      advance, moments := AdvanceUntilEach(targets, channels);
      r := Err(Producer);
      if advance.Err? {
        r := Err(advance.error);
      } else if advance.value.Fixed? {
        r := Ok(advance.value.execution);
      } else {
        assert false;
      }
    }

    // Asks for a longer prefix; a shorter one is refused.
    method ExtendTopK(topK: nat) returns (r: Result<(), Error>)
      requires Valid()
      modifies `warmupPulls, `forceCheck, state`topK
      ensures Valid()
      ensures r.Ok? <==> topK >= old(state.topK)
      ensures state.topK == if r.Ok? then topK else old(state.topK)
      ensures r.Ok? ==> forceCheck && warmupPulls == Max(old(warmupPulls), topK * |sources| * 2)
      ensures r.Err? ==> forceCheck == old(forceCheck) && warmupPulls == old(warmupPulls)
    {
      if topK < state.topK {
        return Err(Validation);
      }
      state.topK := topK;
      var warmup := topK * |sources| * 2;
      warmupPulls := if warmupPulls >= warmup then warmupPulls else warmup;
      forceCheck := true;
      r := Ok(());
    }

    // What a call for a longer prefix goes by.
    ghost function Extended(topK: nat): Setting
      reads this, state
    {
      Given(Untargeted()).(topK := topK, warmup := Max(warmupPulls, topK * |sources| * 2))
    }

    method CachedPrefix() returns (execution: Execution)
      requires Valid() && exhaustedOrder.Some?
      ensures Exact(execution)
    {
      execution := Execution(Take(exhaustedOrder.value, state.topK), pulls, state.exhausted, certificationChecks,
                             AllSourcesExhausted);
      ExhaustedIsExact(exhaustedOrder.value);
    }

    // Extends the exact prefix; once every source has ended, one complete order
    // serves all later prefixes without reading anything.
    method RunToPrefix(topK: nat, ghost channels: Channels)
        returns (r: Result<Execution, Error>, ghost moments: seq<Moment>)
      requires Valid()
      modifies this, state
      ensures Valid()
      ensures topK < old(state.topK) ==> r.Err? && state.topK == old(state.topK) && Now() == old(Now())
      ensures topK >= old(state.topK) && old(exhaustedOrder.None?) ==>
        Call(old(Extended(topK)), moments, old(Now()).(force := true), Outcome(r), Now())
      ensures r.Ok? ==> state.topK == topK && Exact(r.value)
      ensures old(Honest(channels)) ==> Honest(channels)
      ensures old(Honest(channels)) && topK >= old(state.topK) ==>
        r.Ok? && IsTopK(state.F(), channels, topK, r.value.ids)
      ensures old(exhaustedOrder.Some?) ==> history == old(history) && sources == old(sources)
      ensures exhaustedOrder.Some? <==> old(exhaustedOrder.Some?) || (r.Ok? && state.AllExhausted())
      ensures old(IsFair()) ==> IsFair()
    {
      moments := [];
      var extended := ExtendTopK(topK);
      if extended.Err? {
        return Err(extended.error), moments;
      }
      if exhaustedOrder.Some? {
        var cached := CachedPrefix();
        return Ok(cached), moments;
      }
      assert Given(Untargeted()) == old(Extended(topK)) && Now() == old(Now()).(force := true);
      r, moments := RunAndCache(channels);
    }

    // Caches the complete order when every source has ended.
    method RunAndCache(ghost channels: Channels) returns (r: Result<Execution, Error>, ghost moments: seq<Moment>)
      requires Valid() && exhaustedOrder.None?
      modifies this, state
      ensures Valid() && state.topK == old(state.topK)
      ensures Call(old(Given(Untargeted())), moments, old(Now()), Outcome(r), Now())
      ensures r.Ok? ==> Exact(r.value)
      ensures old(Honest(channels)) ==>
        Honest(channels) && r.Ok? && IsTopK(state.F(), channels, state.topK, r.value.ids)
      ensures exhaustedOrder.Some? <==> r.Ok? && state.AllExhausted()
      ensures old(IsFair()) ==> IsFair()
    {
      r, moments := RunToCompletion(channels);
      if r.Ok? && r.value.stopReason == AllSourcesExhausted {
        var order := CacheOrder();
        r := Ok(r.value.(ids := Take(order, state.topK)));
      }
    }

    method CacheOrder() returns (order: seq<PointId>)
      requires Valid() && state.AllExhausted()
      modifies `exhaustedOrder
      ensures Valid() && exhaustedOrder == Some(order)
      ensures forall channels :: Completes(state.F(), history, state.exhausted, channels) ==>
        IsTopK(state.F(), channels, state.topK, Take(order, state.topK))
    {
      order := state.CompleteOrder();
      ExhaustedIsExact(order);
      exhaustedOrder := Some(order);
    }

    lemma ExhaustedIsExact(order: seq<PointId>)
      requires Valid() && state.AllExhausted()
      requires IsFusedPrefix(state.F(), history, order) && IsComplete(state.F(), history, order)
      ensures forall channels :: Completes(state.F(), history, state.exhausted, channels) ==>
        IsTopK(state.F(), channels, state.topK, Take(order, state.topK))
    {
      forall channels | Completes(state.F(), history, state.exhausted, channels)
        ensures IsTopK(state.F(), channels, state.topK, Take(order, state.topK))
      {
        assert channels == history;
        TakeIsTopK(state.F(), history, state.topK, order);
      }
    }

    // Swaps a live source for another point stream, which has to replay the
    // whole observed prefix first.
    method ReplaceSource(source: nat, replacement: seq<Result<PointId, Error>>, ghost channels: Channels)
        returns (r: Result<(), Error>)
      requires Valid()
      modifies `sources
      ensures Valid()
      ensures r.Err? ==> sources == old(sources)
      ensures r.Ok? <==>
        && source < |old(sources)| && !state.exhausted[source]
        && |replacement| >= |history[source]|
        && forall i :: 0 <= i < |history[source]| ==> replacement[i] == Ok(history[source][i])
      ensures r.Ok? ==> sources == old(sources)[source := PointStream(replacement[|history[source]|..])]
      ensures old(Honest(channels)) && r.Err? ==> Honest(channels)
      ensures old(Honest(channels)) && r.Ok? ==>
        HonestSource(PointStream(replacement), 0, channels[source], batchSize) ==> Honest(channels)
    {
      if source >= |sources| || state.exhausted[source] {
        return Err(Validation);
      }
      var expected := history[source];
      for rank := 0 to |expected|
        invariant rank <= |replacement|
        invariant forall i :: 0 <= i < rank ==> replacement[i] == Ok(expected[i])
      {
        if rank == |replacement| {
          return Err(Validation);
        }
        if replacement[rank].Err? {
          return Err(replacement[rank].error);
        }
        if replacement[rank].value != expected[rank] {
          return Err(Validation);
        }
      }
      sources := sources[source := PointStream(replacement[|expected|..])];
      r := Ok(());
    }
  }

  function Clamp(x: nat, low: nat, high: nat): nat {
    if x < low then low else if x > high then high else x
  }
}
