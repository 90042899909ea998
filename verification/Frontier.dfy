// Emission in exact order from groups of points of which only an upper bound on
// the score is known. Both the dense and the sparse rank state follow it.
module Frontier {
  import opened Common
  import opened RankOrder

  // Points not scored yet: none scores above the bound, none has an identity
  // below the start, unless the bound is wrong.
  datatype Group = Group(start: PointId, upper: real, members: set<Scored>)

  ghost predicate Honest(g: Group) {
    forall x :: x in g.members ==> x.score <= g.upper && g.start <= x.id
  }

  // A point that no member of an honest group can precede.
  predicate Beats(x: Scored, g: Group) {
    Before(x.id, x.score, g.start, g.upper)
  }

  lemma BeatsMembers(x: Scored, g: Group, y: Scored)
    requires Beats(x, g) && Honest(g) && y in g.members
    ensures Precedes(x, y)
  {
  }

  ghost predicate Waiting(groups: set<Group>, x: Scored) {
    exists g :: g in groups && x in g.members
  }

  // Every point is still in a group, scored and pending, or emitted; what was
  // emitted is ranked and precedes or beats all the rest.
  ghost predicate Sound(universe: set<Scored>, groups: set<Group>, pending: set<Scored>, emitted: seq<Scored>) {
    && (forall x :: x in universe <==> Waiting(groups, x) || x in pending || x in emitted)
    && Ranked(emitted)
    && (forall e, x :: e in emitted && x in pending ==> Precedes(e, x))
    && (forall e, g :: e in emitted && g in groups ==> Beats(e, g))
  }

  // Scoring the members of a group whose bound turns out right.
  lemma Resolve(universe: set<Scored>, groups: set<Group>, pending: set<Scored>, emitted: seq<Scored>, g: Group)
    requires Sound(universe, groups, pending, emitted) && g in groups && Honest(g)
    ensures Sound(universe, groups - {g}, pending + g.members, emitted)
  {
    forall x ensures x in universe <==> Waiting(groups - {g}, x) || x in pending + g.members || x in emitted {
      if Waiting(groups, x) && x !in g.members {
        var h :| h in groups && x in h.members;
        assert h in groups - {g};
      }
    }
    forall e, x | e in emitted && x in g.members ensures Precedes(e, x) {
      BeatsMembers(e, g, x);
    }
  }

  // Emitting the best pending point, once it beats every group.
  lemma Emit(universe: set<Scored>, groups: set<Group>, pending: set<Scored>, emitted: seq<Scored>, x: Scored)
    requires Sound(universe, groups, pending, emitted) && x in pending
    requires forall y :: y in pending && y != x ==> Precedes(x, y)
    requires forall g :: g in groups ==> Beats(x, g)
    ensures Sound(universe, groups, pending - {x}, emitted + [x])
  {
    var longer := emitted + [x];
    assert forall y :: y in longer <==> y in emitted || y == x;
  }

  // The complete ranking of the universe.
  ghost predicate IsRanking(universe: set<Scored>, whole: seq<Scored>) {
    Ranked(whole) && forall x :: x in whole <==> x in universe
  }

  // As long as the bounds not looked into yet are right, what was emitted is
  // the beginning of the complete ranking.
  lemma EmittedIsPrefix(universe: set<Scored>, groups: set<Group>, pending: set<Scored>, emitted: seq<Scored>,
                        whole: seq<Scored>)
    requires Sound(universe, groups, pending, emitted) && IsRanking(universe, whole)
    requires forall g :: g in groups ==> Honest(g)
    ensures emitted <= whole
  {
    forall e, x | e in emitted && x in whole && x !in emitted ensures Precedes(e, x) {
      if x !in pending {
        var g :| g in groups && x in g.members;
        BeatsMembers(e, g, x);
      }
    }
    RankedSegment(emitted, whole);
  }

  // A stream that ran to its end is the complete ranking, whatever the bounds
  // were: a wrong one would have been noticed.
  lemma ExhaustedIsWhole(universe: set<Scored>, emitted: seq<Scored>, whole: seq<Scored>)
    requires Sound(universe, {}, {}, emitted) && IsRanking(universe, whole)
    ensures emitted == whole
  {
    RankedUnique(emitted, whole);
  }
}
