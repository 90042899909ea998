// The walk over a process's descendants and the page faults summed over them.
//
// Source: src/common/metrics.rs
module ProcessWalk {
  import opened Common

  type Pid = nat
  datatype ProcError = NotFound | PermissionDenied | Other

  // What listing the children of a process yields, one result after another. A
  // process that is gone has no entry.
  type Listing = map<Pid, seq<Result<Pid, ProcError>>>

  function Children(l: Listing, p: Pid): seq<Result<Pid, ProcError>> {
    if p in l then l[p] else []
  }

  ghost predicate IsChild(l: Listing, p: Pid, c: Pid) {
    p in l && Ok(c) in l[p]
  }

  // There is a chain of n child edges from one process to the other.
  ghost predicate Reaches(l: Listing, a: Pid, b: Pid, n: nat)
    decreases n
  {
    n > 0 && if n == 1 then IsChild(l, a, b) else exists c :: IsChild(l, a, c) && Reaches(l, c, b, n - 1)
  }

  ghost predicate Descendant(l: Listing, a: Pid, b: Pid) {
    exists n: nat :: Reaches(l, a, b, n)
  }

  lemma ChildIsDescendant(l: Listing, a: Pid, b: Pid)
    requires IsChild(l, a, b)
    ensures Descendant(l, a, b)
  {
    assert Reaches(l, a, b, 1);
  }

  lemma ViaChild(l: Listing, a: Pid, c: Pid, b: Pid)
    requires IsChild(l, a, c) && Descendant(l, c, b)
    ensures Descendant(l, a, b)
  {
    var n: nat :| Reaches(l, c, b, n);
    assert Reaches(l, a, b, n + 1);
  }

  // All children of the process are in the set and none of its results failed.
  ghost predicate Covered(l: Listing, p: Pid, s: set<Pid>) {
    p in l ==> forall i :: 0 <= i < |l[p]| ==> l[p][i].Ok? && l[p][i].value in s
  }

  // A set that covers a process and all its own members holds every descendant.
  lemma {:induction false} ClosedHoldsAll(l: Listing, s: set<Pid>, a: Pid, b: Pid, n: nat)
    requires Covered(l, a, s) && (forall x :: x in s ==> Covered(l, x, s))
    requires Reaches(l, a, b, n)
    ensures b in s
    decreases n
  {
    if n > 1 {
      var c :| IsChild(l, a, c) && Reaches(l, c, b, n - 1);
      ClosedHoldsAll(l, s, c, b, n - 1);
    }
  }

  // The walk's result: exactly the descendants, each once.
  ghost predicate IsDescendants(l: Listing, root: Pid, s: set<Pid>) {
    forall x :: x in s <==> Descendant(l, root, x)
  }

  // Every process starts after its parent.
  ghost predicate StartsLater(l: Listing, start: Pid -> nat) {
    forall p, c :: IsChild(l, p, c) ==> start(p) < start(c)
  }

  lemma {:induction false} DescendantStartsLater(l: Listing, start: Pid -> nat, a: Pid, b: Pid, n: nat)
    requires StartsLater(l, start) && Reaches(l, a, b, n)
    ensures start(a) < start(b)
    decreases n
  {
    if n > 1 {
      var c :| IsChild(l, a, c) && Reaches(l, c, b, n - 1);
      DescendantStartsLater(l, start, c, b, n - 1);
    }
  }

  // So the root of the walk is not counted among its descendants.
  lemma RootIsExcluded(l: Listing, start: Pid -> nat, root: Pid, s: set<Pid>)
    requires IsDescendants(l, root, s) && StartsLater(l, start)
    ensures root !in s
  {
    if Descendant(l, root, root) {
      var n: nat :| Reaches(l, root, root, n);
      DescendantStartsLater(l, start, root, root, n);
    }
  }

  // Every process that appears as a child anywhere.
  ghost function Universe(l: Listing): set<Pid> {
    set p, i | p in l && 0 <= i < |l[p]| && l[p][i].Ok? :: l[p][i].value
  }

  // Some process at or below the root fails to list its children.
  ghost predicate FailsBelow(l: Listing, root: Pid, e: ProcError) {
    exists p :: (p == root || Descendant(l, root, p)) && p in l && Err(e) in l[p]
  }

  class Walk {
    const listing: Listing
    var pids: set<Pid>

    constructor (listing: Listing)
      ensures this.listing == listing && pids == {}
    {
      this.listing, pids := listing, {};
    }

    // Adds the descendants of pid, going only into processes not met before.
    method Collect(pid: Pid) returns (r: Result<(), ProcError>)
      requires pids <= Universe(listing)
      modifies this`pids
      ensures old(pids) <= pids <= Universe(listing)
      ensures forall x :: x in pids - old(pids) ==> Descendant(listing, pid, x)
      ensures r.Ok? ==> Covered(listing, pid, pids) && forall x :: x in pids - old(pids) ==> Covered(listing, x, pids)
      ensures r.Err? ==> FailsBelow(listing, pid, r.error)
      decreases Universe(listing) - pids
    {
      var children := Children(listing, pid);
      for i := 0 to |children|
        invariant old(pids) <= pids <= Universe(listing)
        invariant forall x :: x in pids - old(pids) ==> Descendant(listing, pid, x)
        invariant forall k :: 0 <= k < i ==> children[k].Ok? && children[k].value in pids
        invariant forall x :: x in pids - old(pids) ==> Covered(listing, x, pids)
      {
        if children[i].Err? {
          assert FailsBelow(listing, pid, children[i].error);
          return Err(children[i].error);
        }
        var child := children[i].value;
        assert IsChild(listing, pid, child);
        if child !in pids {
          ChildIsDescendant(listing, pid, child);
          ghost var before := pids;
          pids := pids + {child};
          r := Collect(child);
          forall x | Descendant(listing, child, x) ensures Descendant(listing, pid, x) {
            ViaChild(listing, pid, child, x);
          }
          if r.Err? { return; }
          assert forall x :: Covered(listing, x, before) ==> Covered(listing, x, pids);
        }
      }
      r := Ok(());
    }
  }

  method ChildProcesses(listing: Listing, pid: Pid) returns (r: Result<set<Pid>, ProcError>)
    ensures r.Ok? ==> IsDescendants(listing, pid, r.value)
    ensures r.Err? ==> FailsBelow(listing, pid, r.error)
    ensures r.Ok? <==> forall e :: !FailsBelow(listing, pid, e)
  {
    var walk := new Walk(listing);
    var done := walk.Collect(pid);
    if done.Err? { return Err(done.error); }
    var pids := walk.pids;
    forall x | Descendant(listing, pid, x) ensures x in pids {
      var n: nat :| Reaches(listing, pid, x, n);
      ClosedHoldsAll(listing, pids, pid, x, n);
    }
    assert forall p :: p == pid || Descendant(listing, pid, p) ==> Covered(listing, p, pids);
    assert forall p, e :: p in listing && Covered(listing, p, pids) ==> Err(e) !in listing[p];
    r := Ok(pids);
  }

  // ---------------------------------------------------------------------
  // Page faults

  datatype Stat = Stat(minflt: nat, cminflt: nat, majflt: nat, cmajflt: nat)

  function Minor(stats: map<Pid, Result<Stat, ProcError>>, p: Pid): nat {
    if p in stats && stats[p].Ok? then stats[p].value.minflt + stats[p].value.cminflt else 0
  }

  function Major(stats: map<Pid, Result<Stat, ProcError>>, p: Pid): nat {
    if p in stats && stats[p].Ok? then stats[p].value.majflt + stats[p].value.cmajflt else 0
  }

  ghost function MinorOf(stats: map<Pid, Result<Stat, ProcError>>): Pid -> nat {
    (p: Pid) => Minor(stats, p)
  }

  ghost function MajorOf(stats: map<Pid, Result<Stat, ProcError>>): Pid -> nat {
    (p: Pid) => Major(stats, p)
  }

  // The sum over a set, each member once.
  ghost function Total(s: set<Pid>, f: Pid -> nat): nat {
    if s == {} then 0 else
    var x :| x in s;
    f(x) + Total(s - {x}, f)
  }

  lemma {:induction false} TotalWithout(s: set<Pid>, f: Pid -> nat, x: Pid)
    requires x in s
    ensures Total(s, f) == f(x) + Total(s - {x}, f)
    decreases |s|
  {
    var y :| y in s && Total(s, f) == f(y) + Total(s - {y}, f);
    if y != x {
      TotalWithout(s - {y}, f, x);
      TotalWithout(s - {x}, f, y);
      assert s - {y} - {x} == s - {x} - {y};
    }
  }

  // A process whose statistics cannot be read, although it still exists.
  ghost predicate Unreadable(stats: map<Pid, Result<Stat, ProcError>>, p: Pid, e: ProcError) {
    p in stats && stats[p] == Err(e) && e != NotFound
  }

  // Processes that are gone, without an entry or reported as not found, are
  // left out of the totals.
  method SumFaults(stats: map<Pid, Result<Stat, ProcError>>, children: set<Pid>)
      returns (r: Result<(nat, nat), ProcError>)
    ensures r.Ok? ==> r.value == (Total(children, MinorOf(stats)), Total(children, MajorOf(stats)))
    ensures r.Err? ==> exists p :: p in children && Unreadable(stats, p, r.error)
    ensures r.Ok? ==> forall p, e :: p in children ==> !Unreadable(stats, p, e)
  {
    var left := children;
    var min, maj := 0, 0;
    ghost var minor, major := MinorOf(stats), MajorOf(stats);
    while left != {}
      invariant left <= children
      invariant min + Total(left, minor) == Total(children, minor)
      invariant maj + Total(left, major) == Total(children, major)
      invariant forall p, e :: p in children - left ==> !Unreadable(stats, p, e)
      decreases |left|
    {
      var child :| child in left;
      TotalWithout(left, minor, child);
      TotalWithout(left, major, child);
      assert minor(child) == Minor(stats, child) && major(child) == Major(stats, child);
      left := left - {child};
      if child in stats {
        var stat := stats[child];
        if stat.Err? && stat.error != NotFound {
          assert Unreadable(stats, child, stat.error);
          return Err(stat.error);
        }
        if stat.Ok? {
          min := min + (stat.value.minflt + stat.value.cminflt);
          maj := maj + (stat.value.majflt + stat.value.cmajflt);
        }
      }
    }
    r := Ok((min, maj));
  }

  method FaultsForAllChildren(listing: Listing, stats: map<Pid, Result<Stat, ProcError>>, parent: Pid)
    returns (r: Result<(nat, nat), ProcError>)
    ensures r.Ok? ==> exists descendants ::
      && IsDescendants(listing, parent, descendants)
      && r.value == (Total(descendants, MinorOf(stats)), Total(descendants, MajorOf(stats)))
    ensures r.Ok? ==> forall p, e :: Descendant(listing, parent, p) ==> !Unreadable(stats, p, e)
    ensures r.Err? ==>
      FailsBelow(listing, parent, r.error)
      || exists p :: Descendant(listing, parent, p) && Unreadable(stats, p, r.error)
  {
    var children := ChildProcesses(listing, parent);
    if children.Err? { return Err(children.error); }
    r := SumFaults(stats, children.value);
    if r.Err? {
      ghost var p :| p in children.value && Unreadable(stats, p, r.error);
      assert Descendant(listing, parent, p);
    }
  }
}
