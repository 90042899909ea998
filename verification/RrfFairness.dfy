// Fairness of the source scheduler: how long a live source can wait for its
// next action, in every run, and the run that attains it.
//
// Sources: lib/segment/src/common/reciprocal_rank_fusion/session.rs
// (select_source_to_advance), types.rs (fairness_after_actions_per_source)
module RrfFairness {
  import opened Common
  import opened RrfScoring
  import opened RrfTightness

  // ---------------------------------------------------------------------
  // The selection rule

  // Compares (priority, next contribution).
  predicate Better(x: (real, real), y: (real, real)) {
    x.0 > y.0 || (x.0 == y.0 && x.1 > y.1)
  }

  // The flagged source that waited longest, the lowest index among equals.
  ghost predicate IsLongest(overdue: seq<bool>, waits: seq<nat>, source: nat)
    requires |overdue| == |waits|
  {
    && source < |overdue| && overdue[source]
    && forall t :: 0 <= t < |overdue| && overdue[t] ==>
         waits[t] < waits[source] || (waits[t] == waits[source] && source <= t)
  }

  // The flagged source of highest rank, the lowest index among equals.
  ghost predicate IsBest(eligible: seq<bool>, ranks: seq<(real, real)>, source: nat)
    requires |eligible| == |ranks|
  {
    && source < |eligible| && eligible[source]
    && forall t :: 0 <= t < |eligible| && eligible[t] ==>
         || ranks[source].0 > ranks[t].0
         || (ranks[source].0 == ranks[t].0 && ranks[source].1 > ranks[t].1)
         || (ranks[source] == ranks[t] && source <= t)
  }

  // What the rule sees of every source.
  datatype View = View(overdue: seq<bool>, waits: seq<nat>, eligible: seq<bool>, ranks: seq<(real, real)>)

  ghost predicate Whole(v: View) {
    |v.overdue| == |v.waits| == |v.eligible| == |v.ranks|
  }

  // An overdue source goes first; only without one the ranks decide.
  ghost predicate Chosen(v: View, source: nat)
    requires Whole(v)
  {
    if AnyFlag(v.overdue) then IsLongest(v.overdue, v.waits, source) else IsBest(v.eligible, v.ranks, source)
  }

  method LongestWaiting(overdue: seq<bool>, waits: seq<nat>) returns (oldest: Option<nat>)
    requires |overdue| == |waits|
    ensures oldest.Some? ==> IsLongest(overdue, waits, oldest.value)
    ensures oldest.None? ==> forall t :: 0 <= t < |overdue| ==> !overdue[t]
  {
    oldest := None;
    for s := 0 to |overdue|
      invariant oldest.Some? ==> oldest.value < s && overdue[oldest.value]
      invariant forall t :: 0 <= t < s && overdue[t] ==>
        && oldest.Some?
        && (waits[t] < waits[oldest.value] || (waits[t] == waits[oldest.value] && oldest.value <= t))
    {
      if overdue[s] && (oldest.None? || waits[s] > waits[oldest.value]) {
        oldest := Some(s);
      }
    }
  }

  method HighestPriority(eligible: seq<bool>, ranks: seq<(real, real)>) returns (best: Option<nat>)
    requires |eligible| == |ranks|
    ensures best.Some? ==> IsBest(eligible, ranks, best.value)
    ensures best.None? ==> forall t :: 0 <= t < |eligible| ==> !eligible[t]
  {
    best := None;
    for s := 0 to |eligible|
      invariant best.Some? ==> best.value < s && eligible[best.value]
      invariant forall t :: 0 <= t < s && eligible[t] ==>
        && best.Some? && !Better(ranks[t], ranks[best.value])
        && (ranks[t] == ranks[best.value] ==> best.value <= t)
    {
      if eligible[s] && (best.None? || Better(ranks[s], ranks[best.value])) {
        best := Some(s);
      }
    }
  }

  ghost predicate AnyFlag(flags: seq<bool>) {
    exists t :: 0 <= t < |flags| && flags[t]
  }

  ghost predicate FlagsWithin(some: seq<bool>, all: seq<bool>) {
    |some| == |all| && forall t :: 0 <= t < |some| && some[t] ==> all[t]
  }

  lemma ChosenIsEligible(v: View, source: nat)
    requires Whole(v) && Chosen(v, source) && FlagsWithin(v.overdue, v.eligible)
    ensures source < |v.eligible| && v.eligible[source]
  {
  }

  // The whole rule.
  method Choose(v: View) returns (source: nat)
    requires Whole(v) && AnyFlag(v.eligible)
    ensures Chosen(v, source)
  {
    var oldest := LongestWaiting(v.overdue, v.waits);
    if oldest.Some? { return oldest.value; }
    var best := HighestPriority(v.eligible, v.ranks);
    source := best.value;
  }

  // ---------------------------------------------------------------------
  // What is seen

  datatype Scheduler = MaxNextContribution | CompetitorCostAware

  // What a source is ranked by: its next contribution, or how much of it the next
  // rank takes away, for each competitor it may still decide about and each unit
  // of cost.
  function Priority(scheduler: Scheduler, bound: real, nextBound: real, missing: nat, cost: real): real
    requires cost > 0.0
  {
    match scheduler
    case MaxNextContribution => bound
    case CompetitorCostAware =>
      var reduction := bound - nextBound;
      var live := if missing == 0 then 1 else missing;
      (if reduction > 0.0 then reduction else 0.0) * live as real / cost
  }

  // What the ranks of the sources depend on.
  datatype Standing = Standing(arith: Arithmetic, k: nat, weights: seq<real>, costs: seq<real>,
                               positions: seq<nat>, missing: seq<nat>)

  ghost predicate IsStanding(t: Standing, n: nat) {
    && |t.weights| == |t.costs| == |t.positions| == |t.missing| == n
    && forall s :: 0 <= s < n ==> t.costs[s] > 0.0
  }

  // What a source at a position is ranked by.
  function RankAt(a: Arithmetic, k: nat, scheduler: Scheduler, position: nat, weight: real, missing: nat,
                  cost: real): (real, real)
    requires cost > 0.0
  {
    var bound := PositionScore(a, position, k, weight);
    (Priority(scheduler, bound, PositionScore(a, position + 1, k, weight), missing, cost), bound)
  }

  function RanksOf(t: Standing, scheduler: Scheduler): (ranks: seq<(real, real)>)
    requires IsStanding(t, |t.weights|)
    ensures |ranks| == |t.weights|
    ensures forall s :: 0 <= s < |ranks| ==>
      ranks[s] == RankAt(t.arith, t.k, scheduler, t.positions[s], t.weights[s], t.missing[s], t.costs[s])
  {
    seq(|t.weights|, s requires 0 <= s < |t.weights| && IsStanding(t, |t.weights|) =>
      RankAt(t.arith, t.k, scheduler, t.positions[s], t.weights[s], t.missing[s], t.costs[s]))
  }

  // A source is eligible while it is live and below its target.
  function EligibleFlags(exhausted: seq<bool>, pulls: seq<nat>, targets: seq<Option<nat>>): (flags: seq<bool>)
    requires |exhausted| == |pulls| == |targets|
    ensures |flags| == |targets|
    ensures forall s :: 0 <= s < |flags| ==>
      (flags[s] <==> !exhausted[s] && (targets[s].Some? ==> pulls[s] < targets[s].value))
  {
    seq(|targets|, s requires 0 <= s < |targets| && |exhausted| == |pulls| == |targets| =>
      !exhausted[s] && (targets[s].Some? ==> pulls[s] < targets[s].value))
  }

  function WaitsSince(last: seq<nat>, actions: nat): (waits: seq<nat>)
    requires forall s :: 0 <= s < |last| ==> last[s] <= actions
    ensures |waits| == |last| && forall s :: 0 <= s < |last| ==> waits[s] == actions - last[s]
  {
    seq(|last|, s requires 0 <= s < |last| && last[s] <= actions => actions - last[s])
  }

  // An eligible source is overdue once it has waited for the window.
  function OverdueFlags(eligible: seq<bool>, waits: seq<nat>, window: Option<nat>): (overdue: seq<bool>)
    requires |eligible| == |waits|
    ensures |overdue| == |eligible|
    ensures forall s :: 0 <= s < |overdue| ==> (overdue[s] <==> eligible[s] && window.Some? && waits[s] >= window.value)
  {
    seq(|eligible|, s requires 0 <= s < |eligible| == |waits| =>
      eligible[s] && window.Some? && waits[s] >= window.value)
  }

  function ViewOf(t: Standing, scheduler: Scheduler, window: Option<nat>, eligible: seq<bool>, waits: seq<nat>): View
    requires |eligible| == |waits| && IsStanding(t, |t.weights|)
  {
    View(OverdueFlags(eligible, waits, window), waits, eligible, RanksOf(t, scheduler))
  }

  // ---------------------------------------------------------------------
  // The bound

  // Every action since a live source became overdue is still the latest action
  // of some source.
  ghost predicate Fair(last: seq<nat>, actions: nat, exhausted: seq<bool>, window: nat)
    requires |last| == |exhausted|
  {
    forall s, j :: 0 <= s < |last| && !exhausted[s] && last[s] + window <= j <= actions ==> j in last
  }

  // So no live source waits for more than window + n - 2 actions.
  lemma FairBound(last: seq<nat>, actions: nat, exhausted: seq<bool>, window: nat, s: nat)
    requires s < |last| == |exhausted| && !exhausted[s] && window > 0
    requires Fair(last, actions, exhausted, window)
    ensures actions - last[s] <= window + |last| - 2
  {
    if actions >= last[s] + window {
      var later := Range(last[s] + window, actions);
      var listed := set i | 0 <= i < |last| && i != s :: last[i];
      forall j | j in later
        ensures j in listed
      {
        assert j in last;
        var i :| 0 <= i < |last| && last[i] == j;
      }
      SubsetSize(later, listed);
      OthersSize(last, s);
    }
  }

  ghost function Range(low: nat, high: nat): (range: set<nat>)
    requires low <= high
    ensures |range| == high - low + 1 && forall j :: j in range <==> low <= j <= high
    decreases high - low
  {
    if low == high then {low} else Range(low, high - 1) + {high}
  }

  lemma OthersSize(last: seq<nat>, s: nat)
    requires s < |last|
    ensures |set i | 0 <= i < |last| && i != s :: last[i]| <= |last| - 1
  {
    var others := last[..s] + last[s + 1..];
    var listed := set i | 0 <= i < |last| && i != s :: last[i];
    assert listed <= set i | 0 <= i < |others| :: others[i] by {
      forall i | 0 <= i < |last| && i != s
        ensures exists k :: 0 <= k < |others| && others[k] == last[i]
      {
        var k := if i < s then i else i - 1;
        assert others[k] == last[i];
      }
    }
    SubsetSize(listed, set i | 0 <= i < |others| :: others[i]);
    ListedSize(others);
  }

  // The scheduler keeps this: it never passes over an overdue source in favour
  // of one that waited less.
  lemma FairStep(last: seq<nat>, actions: nat, before: seq<bool>, after: seq<bool>, window: nat, p: nat)
    requires p < |last| == |before| == |after| && window > 0
    requires Fair(last, actions, before, window)
    requires forall s :: 0 <= s < |last| ==> last[s] <= actions && (before[s] ==> after[s])
    requires forall s :: 0 <= s < |last| && !before[s] && actions - last[s] >= window ==> last[p] <= last[s]
    ensures Fair(last[p := actions + 1], actions + 1, after, window)
  {
    var now := last[p := actions + 1];
    forall s, j | 0 <= s < |now| && !after[s] && now[s] + window <= j <= actions + 1
      ensures j in now
    {
      if j == actions + 1 {
        assert now[p] == j;
      } else {
        assert j in last;
        var t :| 0 <= t < |last| && last[t] == j;
        assert now[t] == j;
      }
    }
  }

  // ---------------------------------------------------------------------
  // Runs

  // Sources that compete for actions: how they rank and which have not ended,
  // after any schedule of actions.
  datatype Contest = Contest(n: nat, ranks: seq<nat> -> seq<(real, real)>, live: seq<nat> -> seq<bool>)

  // A source that has ended stays so.
  ghost predicate IsContest(c: Contest) {
    && (forall schedule :: |c.ranks(schedule)| == c.n)
    && (forall schedule :: |c.live(schedule)| == c.n)
    && forall schedule: seq<nat>, p: nat, s: nat ::
         s < c.n && c.live(schedule + [p])[s] ==> c.live(schedule)[s]
  }

  ghost function LastAfter(n: nat, schedule: seq<nat>): (last: seq<nat>)
    ensures |last| == n && forall s :: 0 <= s < n ==> last[s] <= |schedule|
  {
    if schedule == [] then seq(n, _ => 0) else
    var t := |schedule| - 1;
    var before := LastAfter(n, schedule[..t]);
    if schedule[t] < n then before[schedule[t] := t + 1] else before
  }

  ghost function WaitOf(n: nat, schedule: seq<nat>, s: nat): nat
    requires s < n
  {
    |schedule| - LastAfter(n, schedule)[s]
  }

  ghost function WaitsAfter(n: nat, schedule: seq<nat>): (waits: seq<nat>)
    ensures |waits| == n && forall s :: 0 <= s < n ==> waits[s] == WaitOf(n, schedule, s)
  {
    seq(n, s requires 0 <= s < n => WaitOf(n, schedule, s))
  }

  ghost predicate Picks(c: Contest, window: nat, schedule: seq<nat>, source: nat)
    requires IsContest(c)
  {
    var live, waits := c.live(schedule), WaitsAfter(c.n, schedule);
    Chosen(View(OverdueFlags(live, waits, Some(window)), waits, live, c.ranks(schedule)), source)
  }

  // Every action goes to the source that the rule chooses.
  ghost predicate IsRun(c: Contest, window: nat, schedule: seq<nat>)
    requires IsContest(c)
  {
    schedule == [] ||
    (var before := schedule[..|schedule| - 1];
     IsRun(c, window, before) && Picks(c, window, before, schedule[|schedule| - 1]))
  }

  lemma RunByPicks(c: Contest, window: nat, schedule: seq<nat>)
    requires IsContest(c) && forall t: nat :: t < |schedule| ==> Picks(c, window, schedule[..t], schedule[t])
    ensures IsRun(c, window, schedule)
  {
    for t := 0 to |schedule|
      invariant IsRun(c, window, schedule[..t])
    {
      assert schedule[..t + 1][..t] == schedule[..t];
    }
    assert schedule[..|schedule|] == schedule;
  }

  ghost function Ended(live: seq<bool>): (exhausted: seq<bool>)
    ensures |exhausted| == |live| && forall s :: 0 <= s < |live| ==> exhausted[s] == !live[s]
  {
    seq(|live|, s requires 0 <= s < |live| => !live[s])
  }

  lemma PickedIsOldest(c: Contest, window: nat, schedule: seq<nat>, p: nat, s: nat)
    requires IsContest(c) && Picks(c, window, schedule, p) && p < c.n && s < c.n
    requires c.live(schedule)[s] && WaitOf(c.n, schedule, s) >= window
    ensures LastAfter(c.n, schedule)[p] <= LastAfter(c.n, schedule)[s]
  {
    var waits := WaitsAfter(c.n, schedule);
    var overdue := OverdueFlags(c.live(schedule), waits, Some(window));
    assert overdue[s];
    assert IsLongest(overdue, waits, p);
    assert waits[s] <= waits[p];
  }

  lemma PickedIsSource(c: Contest, window: nat, schedule: seq<nat>, p: nat)
    requires IsContest(c) && Picks(c, window, schedule, p)
    ensures p < c.n
  {
  }

  lemma {:induction false} RunIsFair(c: Contest, window: nat, schedule: seq<nat>)
    requires IsContest(c) && IsRun(c, window, schedule) && window > 0
    ensures Fair(LastAfter(c.n, schedule), |schedule|, Ended(c.live(schedule)), window)
    decreases |schedule|
  {
    if schedule != [] {
      var t := |schedule| - 1;
      var before, p := schedule[..t], schedule[t];
      assert schedule == before + [p];
      RunIsFair(c, window, before);
      PickedIsSource(c, window, before, p);
      var last, was, now := LastAfter(c.n, before), Ended(c.live(before)), Ended(c.live(schedule));
      forall s | 0 <= s < c.n && !was[s] && t - last[s] >= window ensures last[p] <= last[s] {
        PickedIsOldest(c, window, before, p, s);
      }
      assert forall s: nat :: s < c.n && c.live(before + [p])[s] ==> c.live(before)[s];
      FairStep(last, t, was, now, window, p);
    }
  }

  // Whatever ranks the sources and whenever they end, no live source waits longer
  // than window + n - 2 in any run.
  lemma RunBound(c: Contest, window: nat, schedule: seq<nat>, s: nat)
    requires IsContest(c) && IsRun(c, window, schedule) && window > 0 && s < c.n && c.live(schedule)[s]
    ensures WaitOf(c.n, schedule, s) <= window + c.n - 2
  {
    RunIsFair(c, window, schedule);
    FairBound(LastAfter(c.n, schedule), |schedule|, Ended(c.live(schedule)), window, s);
  }

  // ---------------------------------------------------------------------
  // Point streams that do not end

  ghost function Pulled(schedule: seq<nat>, s: nat): nat {
    if schedule == [] then 0 else
    Pulled(schedule[..|schedule| - 1], s) + if schedule[|schedule| - 1] == s then 1 else 0
  }

  ghost predicate ValidCosts(f: Fusion, costs: seq<real>) {
    |costs| == |f.weights| && forall s :: 0 <= s < |costs| ==> costs[s] > 0.0
  }

  // The counts of competitors may be anything at any time.
  ghost function Endless(f: Fusion, scheduler: Scheduler, costs: seq<real>, missing: (nat, nat) -> nat): (c: Contest)
    requires ValidCosts(f, costs)
    ensures c.n == |f.weights| && IsContest(c)
    ensures forall schedule, s :: 0 <= s < c.n ==>
      && c.live(schedule)[s]
      && c.ranks(schedule)[s]
         == RankAt(f.arith, f.k, scheduler, Pulled(schedule, s), f.weights[s], missing(|schedule|, s), costs[s])
  {
    var n := |f.weights|;
    Contest(n,
            schedule => seq(n, s requires 0 <= s < n && ValidCosts(f, costs) && n == |f.weights| =>
              RankAt(f.arith, f.k, scheduler, Pulled(schedule, s), f.weights[s], missing(|schedule|, s), costs[s])),
            schedule => seq(n, _ => true))
  }

  // ---------------------------------------------------------------------
  // A run that attains the bound

  function Lightness(window: nat): real {
    ((window + 1) * (window + 2)) as real
  }

  // One source of weight one next to light ones.
  function Lopsided(n: nat, window: nat): (f: Fusion)
    requires n > 0
    ensures |f.weights| == n
  {
    var top := 4.0 * Lightness(window) + 10.0;
    Fusion(Arithmetic(x => if x <= top then x else top, top),
           2, seq(n, s => if s == 0 then 1.0 else 1.0 / Lightness(window)))
  }

  // The same count of competitors for every source, as at the start.
  function Same(missing: nat): (nat, nat) -> nat {
    (_, _) => missing
  }

  function Even(n: nat): (costs: seq<real>)
    ensures |costs| == n && forall s :: 0 <= s < n ==> costs[s] == 1.0
  {
    seq(n, _ => 1.0)
  }

  lemma LightnessGrows(p: nat, window: nat)
    requires p < window
    ensures 6.0 <= Lightness(window) && ((p + 2) * (p + 3)) as real <= Lightness(window)
    ensures (p + 3) as real <= Lightness(window)
  {
    var a, b, c, d := p + 2, window + 1, p + 3, window + 2;
    assert a * c <= b * c <= b * d;
    assert 2 * 3 <= b * 3 <= b * d;
    assert c <= b * c;
  }

  lemma LopsidedIsValid(n: nat, window: nat)
    requires n > 0
    ensures ValidFusion(Lopsided(n, window)) && ValidCosts(Lopsided(n, window), Even(n))
  {
    LightnessSign(window);
    ExactArithmeticIsFaithful(4.0 * Lightness(window) + 10.0);
    var e := 1.0 / Lightness(window);
    assert e >= 0.0;
  }

  lemma LightnessSign(window: nat)
    ensures Lightness(window) >= 2.0
  {
    var b, d := window + 1, window + 2;
    assert b * d >= 1 * d;
  }

  lemma TwiceInverse(w: real)
    requires w > 0.0
    ensures 1.0 / w > 0.0 && 1.0 / (1.0 / w) == w && 2.0 / (1.0 / w) == 2.0 * w
  {
    var e := 1.0 / w;
    assert e * w == 1.0;
    var x, y := 1.0 / e, 2.0 / e;
    assert x * e == 1.0 && y * e == 2.0;
    assert x == x * (e * w) == (x * e) * w;
    assert y == y * (e * w) == (y * e) * w;
  }

  // The first two contributions of a light source.
  lemma LightScores(n: nat, window: nat)
    requires n > 0
    ensures
      var f, w := Lopsided(n, window), Lightness(window);
      && PositionScore(f.arith, 0, 2, 1.0 / w) == 1.0 / (w + 1.0)
      && PositionScore(f.arith, 1, 2, 1.0 / w) == 1.0 / (2.0 * w + 1.0)
  {
    var f, w := Lopsided(n, window), Lightness(window);
    LightnessSign(window);
    TwiceInverse(w);
    assert Denominator(f.arith, 0, 2, 1.0 / w) == w + 1.0;
    assert Denominator(f.arith, 1, 2, 1.0 / w) == 2.0 * w + 1.0;
    UnitFraction(w + 1.0);
    UnitFraction(2.0 * w + 1.0);
  }

  lemma UnitFraction(d: real)
    requires d >= 1.0
    ensures 0.0 < 1.0 / d <= 1.0
  {
    var r := 1.0 / d;
    assert r * d == 1.0;
    assert r <= 0.0 ==> r * d <= 0.0;
    assert r > 1.0 ==> r * d > d;
  }

  // The contributions of the heavy source.
  lemma HeavyScore(n: nat, window: nat, p: nat)
    requires n > 0 && p <= window
    ensures PositionScore(Lopsided(n, window).arith, p, 2, 1.0) == 1.0 / (p + 2) as real
  {
    var f, d := Lopsided(n, window), (p + 2) as real;
    LightnessSign(window);
    assert window + 2 <= (window + 1) * (window + 2);
    assert Denominator(f.arith, p, 2, 1.0) == d;
    UnitFraction(d);
  }

  // 1 / x - 1 / (x + 1) is 1 / (x (x + 1)).
  lemma Reduction(x: real, a: real, b: real, w: real)
    requires x >= 1.0 && a == 1.0 / x && b == 1.0 / (x + 1.0) && x * (x + 1.0) <= w
    ensures a - b >= 1.0 / w > 0.0
  {
    assert a * x == 1.0 && b * (x + 1.0) == 1.0;
    var r, y := a - b, x * (x + 1.0);
    assert r * y == (a * x) * (x + 1.0) - (b * (x + 1.0)) * x;
    assert r * y == 1.0;
    assert y >= 1.0;
    assert r > 0.0 by { assert r <= 0.0 ==> r * y <= 0.0; }
    var q := 1.0 / w;
    assert q * w == 1.0;
    Larger(r, y, q, w);
  }

  lemma Larger(r: real, y: real, q: real, w: real)
    requires r > 0.0 && 0.0 < y <= w && r * y == 1.0 == q * w
    ensures r >= q > 0.0
  {
    assert q > 0.0 by { assert q <= 0.0 ==> q * w <= 0.0; }
    assert r < q ==> r * y < q * y <= q * w;
  }

  lemma Smaller(w: real)
    requires w > 0.0
    ensures 0.0 < 1.0 / (w + 1.0) < 1.0 / w
  {
    var q, r := 1.0 / w, 1.0 / (w + 1.0);
    assert q * w == 1.0 && r * (w + 1.0) == 1.0;
    assert r > 0.0 by { assert r <= 0.0 ==> r * (w + 1.0) <= 0.0; }
    assert r * w == 1.0 - r;
    assert q <= r ==> q * w <= r * w;
  }

  // A larger contribution that falls by more ranks first under either scheduler.
  lemma RanksFirst(scheduler: Scheduler, a: real, next: real, b: real, after: real, missing: nat)
    requires a > b >= after && a - next > b - after
    ensures Better((Priority(scheduler, a, next, missing, 1.0), a), (Priority(scheduler, b, after, missing, 1.0), b))
  {
    var live := (if missing == 0 then 1 else missing) as real;
    var x, y := (a - next) * live, (b - after) * live;
    assert x > y by { Scaled(a - next, b - after, live); }
    assert Priority(CompetitorCostAware, a, next, missing, 1.0) == x;
    assert Priority(CompetitorCostAware, b, after, missing, 1.0) == y;
  }

  lemma Scaled(x: real, y: real, c: real)
    requires x > y && c > 0.0
    ensures x * c > y * c
  {
    var d := (x - y) * c;
    assert d > 0.0;
    assert d == x * c - y * c;
  }

  lemma Inverses(x: real, w: real) returns (a: real, next: real, b: real, after: real)
    requires x >= 1.0 && x * (x + 1.0) <= w && x + 1.0 <= w
    ensures a == 1.0 / x && next == 1.0 / (x + 1.0) && b == 1.0 / (w + 1.0) && after == 1.0 / (2.0 * w + 1.0)
    ensures a > b >= after && a - next > b - after
  {
    a, next, b, after := 1.0 / x, 1.0 / (x + 1.0), 1.0 / (w + 1.0), 1.0 / (2.0 * w + 1.0);
    Reduction(x, 1.0 / x, 1.0 / (x + 1.0), w);
    UnitFraction(x + 1.0);
    UnitFraction(2.0 * w + 1.0);
    Smaller(w);
    InverseAntitone(w + 1.0, 2.0 * w + 1.0);
  }

  lemma LopsidedBounds(p: nat, window: nat)
    requires p < window
    ensures
      var w, x := Lightness(window), (p + 2) as real;
      x >= 1.0 && x * (x + 1.0) <= w && x + 1.0 <= w
  {
    LightnessGrows(p, window);
    var x := (p + 2) as real;
    assert x + 1.0 == (p + 3) as real;
    assert x * (x + 1.0) == ((p + 2) * (p + 3)) as real;
  }

  lemma LopsidedScores(n: nat, window: nat, p: nat)
    requires n > 0 && p < window
    ensures
      var a, light := Lopsided(n, window).arith, 1.0 / Lightness(window);
      && PositionScore(a, p, 2, 1.0) > PositionScore(a, 0, 2, light) >= PositionScore(a, 1, 2, light)
      && PositionScore(a, p, 2, 1.0) - PositionScore(a, p + 1, 2, 1.0)
         > PositionScore(a, 0, 2, light) - PositionScore(a, 1, 2, light)
  {
    var a, w, x := Lopsided(n, window).arith, Lightness(window), (p + 2) as real;
    LopsidedBounds(p, window);
    var heavy, next, light, after := Inverses(x, w);
    assert PositionScore(a, p, 2, 1.0) == heavy by { HeavyScore(n, window, p); }
    assert PositionScore(a, p + 1, 2, 1.0) == next by { HeavyScore(n, window, p + 1); }
    assert PositionScore(a, 0, 2, 1.0 / w) == light && PositionScore(a, 1, 2, 1.0 / w) == after by {
      LightScores(n, window);
    }
  }

  // However often the heavy source was pulled within the window, it comes before
  // a light one that was never pulled.
  lemma LopsidedRanks(scheduler: Scheduler, n: nat, window: nat, p: nat, missing: nat)
    requires n > 0 && p < window
    ensures
      var f := Lopsided(n, window);
      Better(RankAt(f.arith, f.k, scheduler, p, 1.0, missing, 1.0),
             RankAt(f.arith, f.k, scheduler, 0, 1.0 / Lightness(window), missing, 1.0))
  {
    LopsidedScores(n, window, p);
    var a, light := Lopsided(n, window).arith, 1.0 / Lightness(window);
    RanksFirst(scheduler, PositionScore(a, p, 2, 1.0), PositionScore(a, p + 1, 2, 1.0),
               PositionScore(a, 0, 2, light), PositionScore(a, 1, 2, light), missing);
  }

  // The heavy source until the others are overdue, then these one by one; the
  // last one is still waiting.
  function Starving(n: nat, window: nat): (schedule: seq<nat>)
    requires n >= 2
    ensures |schedule| == window + n - 2
    ensures forall t :: 0 <= t < |schedule| ==> schedule[t] == if t < window then 0 else t - window + 1
  {
    seq(window + n - 2, t => if t < window then 0 else t - window + 1)
  }

  // When source s had its latest action, t actions into the schedule.
  ghost function StarvingLast(window: nat, t: nat, s: nat): nat {
    if s == 0 then (if t < window then t else window) else if window + s <= t then window + s else 0
  }

  ghost function StarvingPulls(window: nat, t: nat, s: nat): nat {
    if s == 0 then (if t < window then t else window) else if window + s <= t then 1 else 0
  }

  lemma {:induction false} StarvingState(n: nat, window: nat, t: nat, s: nat)
    requires n >= 2 && t <= window + n - 2 && s < n
    ensures LastAfter(n, Starving(n, window)[..t])[s] == StarvingLast(window, t, s)
    ensures Pulled(Starving(n, window)[..t], s) == StarvingPulls(window, t, s)
    decreases t
  {
    var schedule := Starving(n, window);
    if t > 0 {
      StarvingState(n, window, t - 1, s);
      assert schedule[..t][..t - 1] == schedule[..t - 1] && schedule[..t][t - 1] == schedule[t - 1];
    }
  }

  // The contest with equal costs and equal counts of competitors.
  ghost function Uneven(scheduler: Scheduler, missing: nat, n: nat, window: nat): (c: Contest)
    requires n > 0
    ensures IsContest(c) && c.n == n
  {
    LopsidedIsValid(n, window);
    Endless(Lopsided(n, window), scheduler, Even(n), Same(missing))
  }

  lemma StarvingRank(scheduler: Scheduler, missing: nat, n: nat, window: nat, t: nat, s: nat)
    requires n >= 2 && t < window && 0 < s < n
    ensures
      var ranks := Uneven(scheduler, missing, n, window).ranks(Starving(n, window)[..t]);
      Better(ranks[0], ranks[s])
  {
    LopsidedIsValid(n, window);
    StarvingState(n, window, t, 0);
    StarvingState(n, window, t, s);
    LopsidedRanks(scheduler, n, window, t, missing);
  }

  lemma EarlyStep(scheduler: Scheduler, missing: nat, n: nat, window: nat, t: nat)
    requires n >= 2 && t < window
    ensures Picks(Uneven(scheduler, missing, n, window), window, Starving(n, window)[..t], 0)
  {
    LopsidedIsValid(n, window);
    var before, c := Starving(n, window)[..t], Uneven(scheduler, missing, n, window);
    var overdue, ranks := OverdueFlags(c.live(before), WaitsAfter(c.n, before), Some(window)), c.ranks(before);
    forall s | 0 <= s < n ensures !overdue[s] && (s > 0 ==> Better(ranks[0], ranks[s])) {
      StarvingState(n, window, t, s);
      if s > 0 { StarvingRank(scheduler, missing, n, window, t, s); }
    }
    assert IsBest(c.live(before), ranks, 0);
  }

  lemma LateStep(scheduler: Scheduler, missing: nat, n: nat, window: nat, t: nat)
    requires n >= 2 && window >= n && window <= t < window + n - 2
    ensures Picks(Uneven(scheduler, missing, n, window), window, Starving(n, window)[..t], t - window + 1)
  {
    LopsidedIsValid(n, window);
    var before, c := Starving(n, window)[..t], Uneven(scheduler, missing, n, window);
    var overdue, waits := OverdueFlags(c.live(before), WaitsAfter(c.n, before), Some(window)), WaitsAfter(n, before);
    var j := t - window + 1;
    forall s | 0 <= s < n ensures (overdue[s] <==> j <= s) && (j <= s ==> waits[s] == t) {
      StarvingState(n, window, t, s);
    }
    assert overdue[j];
    assert IsLongest(overdue, waits, j);
  }

  lemma StarvingPicks(scheduler: Scheduler, missing: nat, n: nat, window: nat, t: nat)
    requires n >= 2 && window >= n && t < window + n - 2
    ensures Picks(Uneven(scheduler, missing, n, window), window, Starving(n, window)[..t], Starving(n, window)[t])
  {
    if t < window { EarlyStep(scheduler, missing, n, window, t); } else { LateStep(scheduler, missing, n, window, t); }
  }

  lemma StarvingIsRun(scheduler: Scheduler, missing: nat, n: nat, window: nat)
    requires n >= 2 && window >= n
    ensures IsRun(Uneven(scheduler, missing, n, window), window, Starving(n, window))
  {
    var c, schedule := Uneven(scheduler, missing, n, window), Starving(n, window);
    forall t: nat | t < |schedule| ensures Picks(c, window, schedule[..t], schedule[t]) {
      StarvingPicks(scheduler, missing, n, window, t);
    }
    RunByPicks(c, window, schedule);
  }

  lemma StarvingWaits(n: nat, window: nat)
    requires n >= 2
    ensures WaitOf(n, Starving(n, window), n - 1) == window + n - 2
  {
    var t := window + n - 2;
    assert Starving(n, window)[..t] == Starving(n, window);
    StarvingState(n, window, t, n - 1);
  }

  // For either scheduler and any number of sources from two on, some valid fusion
  // with equal costs and counts has a run that attains the bound.
  lemma BoundIsAttained(scheduler: Scheduler, missing: nat, n: nat, window: nat)
    requires n >= 2 && window >= n
    ensures
      var f := Lopsided(n, window);
      && ValidFusion(f) && ValidCosts(f, Even(n))
      && IsRun(Endless(f, scheduler, Even(n), Same(missing)), window, Starving(n, window))
    ensures WaitOf(n, Starving(n, window), n - 1) == window + n - 2
  {
    LopsidedIsValid(n, window);
    StarvingIsRun(scheduler, missing, n, window);
    StarvingWaits(n, window);
  }

  // The documented maximum: no source waits for more than the window, in any run
  // over n sources.
  ghost predicate WithinWindow(scheduler: Scheduler, n: nat, window: nat) {
    forall f: Fusion, costs: seq<real>, missing: (nat, nat) -> nat, schedule: seq<nat>, s: nat ::
      ValidFusion(f) && ValidCosts(f, costs) && |f.weights| == n && s < n
      && IsRun(Endless(f, scheduler, costs, missing), window, schedule) ==>
        WaitOf(n, schedule, s) <= window
  }

  lemma Multiple(fairness: nat, n: nat)
    requires fairness > 0
    ensures fairness * n >= n
  {
    assert fairness * n == (fairness - 1) * n + n;
  }

  // It holds exactly for at most two sources, whatever the scheduler and the
  // setting, which the policy gives as a multiple of the number of sources.
  lemma DocumentedMaximum(scheduler: Scheduler, n: nat, fairness: nat)
    requires n > 0 && fairness > 0
    ensures WithinWindow(scheduler, n, fairness * n) <==> n <= 2
  {
    Multiple(fairness, n);
    if n <= 2 { FewStayWithin(scheduler, n, fairness * n); } else { MoreExceed(scheduler, n, fairness * n); }
  }

  lemma FewStayWithin(scheduler: Scheduler, n: nat, window: nat)
    requires 0 < n <= 2 && window > 0
    ensures WithinWindow(scheduler, n, window)
  {
    forall f: Fusion, costs: seq<real>, missing: (nat, nat) -> nat, schedule: seq<nat>, s: nat |
      ValidFusion(f) && ValidCosts(f, costs) && |f.weights| == n && s < n
      && IsRun(Endless(f, scheduler, costs, missing), window, schedule)
      ensures WaitOf(n, schedule, s) <= window
    {
      FewWait(f, scheduler, costs, missing, window, schedule, s);
    }
  }

  lemma FewWait(f: Fusion, scheduler: Scheduler, costs: seq<real>, missing: (nat, nat) -> nat,
                window: nat, schedule: seq<nat>, s: nat)
    requires ValidCosts(f, costs) && s < |f.weights| <= 2 && window > 0
    requires IsRun(Endless(f, scheduler, costs, missing), window, schedule)
    ensures WaitOf(|f.weights|, schedule, s) <= window
  {
    RunBound(Endless(f, scheduler, costs, missing), window, schedule, s);
  }

  lemma MoreExceed(scheduler: Scheduler, n: nat, window: nat)
    requires 2 < n <= window
    ensures !WithinWindow(scheduler, n, window)
  {
    BoundIsAttained(scheduler, 1, n, window);
    assert WaitOf(n, Starving(n, window), n - 1) > window;
  }
}
