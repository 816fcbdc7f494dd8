/**
 * Installing a validated snapshot: three roots are made, filled, and taken away again when any
 * call fails. What the calls were made for is stated about the whole tree before and after.
 */
module AccountInstall {
  import opened Wrappers
  import opened Octets
  import opened AccountArchive
  import opened AccountDisk

  /** The target directories of config, data and state: none lies in another. */
  predicate Unnested(roots: seq<Path>) {
    && |roots| == 3 && (forall i :: 0 <= i < 3 ==> roots[i] != [])
    && forall i, j :: 0 <= i < 3 && 0 <= j < 3 && i != j ==> !(roots[i] <= roots[j])
  }

  predicate OnTheWay(roots: seq<Path>, p: Path) {
    exists i :: 0 <= i < |roots| && p < roots[i]
  }

  predicate InRoots(roots: seq<Path>, made: set<nat>, p: Path) {
    exists i :: i in made && i < |roots| && roots[i] <= p
  }

  /** Nothing was touched; what is new leads to a root, or lies in a root made here. */
  predicate Grown(before: Tree, now: Tree, roots: seq<Path>, made: set<nat>) {
    && Keeps(before, now)
    && (forall i :: i in made && i < |roots| ==> roots[i] !in before)
    && forall p <- now :: p in before || (OnTheWay(roots, p) && now[p] == Dir) || InRoots(roots, made, p)
  }

  /** The roots made so far are there and still empty. */
  predicate Bare(now: Tree, roots: seq<Path>, made: set<nat>) {
    forall i :: i in made && i < |roots| ==>
      && roots[i] in now && now[roots[i]] == Dir && forall p <- now :: !(roots[i] < p)
  }

  function Upto(n: nat): (s: set<nat>)
    ensures forall i: nat :: i in s <==> i < n
  {
    if n == 0 then {} else Upto(n - 1) + {n - 1}
  }

  /** Nothing stands where the first n roots are to be made, and no file on the way to them. */
  predicate FreeUpto(fs: Tree, roots: seq<Path>, n: nat)
    requires Unnested(roots) && n <= 3
  {
    forall i :: 0 <= i < n ==> Free(fs, roots[i])
  }

  // ---------- making the roots ----------

  lemma NotOnTheWay(roots: seq<Path>, i: nat, p: Path)
    requires Unnested(roots) && i < 3 && roots[i] <= p
    ensures !OnTheWay(roots, p) && (forall made :: i !in made ==> !InRoots(roots, made, p))
  {
    forall j | 0 <= j < 3 && p < roots[j] ensures roots[i] < roots[j] {
      Prefixes(roots[i], p, roots[j]);
    }
    forall j | 0 <= j < 3 && j != i ensures !(roots[j] <= p) {
      OneOnly(roots[i], roots[j], p);
    }
  }

  lemma Prefixes(a: Path, b: Path, c: Path)
    requires a <= b < c
    ensures a < c
  {
    assert a == b[..|a|] == c[..|a|];
  }

  /** Of two paths neither of which leads to the other, at most one leads to p. */
  lemma OneOnly(a: Path, b: Path, p: Path)
    requires a <= p && !(a <= b) && !(b <= a)
    ensures !(b <= p)
  {
    assert forall c: Path, n: nat :: c <= p && n <= |c| ==> c[..n] == p[..n];
  }

  /** What leads to one root lies in no other. */
  lemma NoneAbove(roots: seq<Path>, i: nat, made: set<nat>, p: Path)
    requires Unnested(roots) && i < 3 && p <= roots[i]
    ensures i !in made ==> !InRoots(roots, made, p)
  {
    forall j | 0 <= j < 3 && j != i ensures !(roots[j] <= p) {
    }
  }

  /** Making the other roots neither frees nor blocks one. */
  lemma StillFree(before: Tree, now: Tree, roots: seq<Path>, made: set<nat>, i: nat)
    requires Unnested(roots) && i < 3 && i !in made && Grown(before, now, roots, made)
    ensures Free(now, roots[i]) <==> Free(before, roots[i])
  {
    var way := Up(roots[i]);
    if Free(before, roots[i]) {
      NotOnTheWay(roots, i, roots[i]);
      forall k | 0 <= k <= |way| && way[..k] in now ensures now[way[..k]] == Dir {
        NoneAbove(roots, i, made, way[..k]);
      }
    } else if roots[i] !in before {
      var k :| 0 <= k <= |way| && way[..k] in before && before[way[..k]] != Dir;
      assert way[..k] in now && now[way[..k]] != Dir;
    }
  }

  lemma GrownMore(before: Tree, now: Tree, after: Tree, roots: seq<Path>, made: set<nat>, i: nat)
    requires Unnested(roots) && i < 3 && i !in made && Grown(before, now, roots, made)
    requires AddsWay(now, after, roots[i])
    ensures (roots[i] in after <==> roots[i] in now) ==> Grown(before, after, roots, made)
    ensures roots[i] !in now ==> Grown(before, after, roots, made + {i})
  {
    forall p | p in after && p !in now && p != roots[i] ensures OnTheWay(roots, p) && after[p] == Dir {
      assert p < roots[i];
    }
    forall p | p in after ensures p in before || p == roots[i] || (OnTheWay(roots, p) && after[p] == Dir) || InRoots(roots, made, p) {
      if p in now { assert after[p] == now[p]; }
    }
    forall p | InRoots(roots, made, p) ensures InRoots(roots, made + {i}, p) {
      var j :| j in made && j < |roots| && roots[j] <= p;
      assert j in made + {i};
    }
    assert i in made + {i};
    assert forall p :: p == roots[i] ==> InRoots(roots, made + {i}, p);
  }

  lemma BareMore(now: Tree, after: Tree, roots: seq<Path>, made: set<nat>, i: nat)
    requires Unnested(roots) && i < 3 && i !in made && Bare(now, roots, made) && made <= Upto(3)
    requires Rooted(now) && AddsWay(now, after, roots[i])
    ensures Bare(after, roots, made)
    ensures roots[i] !in now && roots[i] in after ==> after[roots[i]] == Dir && Bare(after, roots, made + {i})
  {
    forall j, p | j in made && j < |roots| && p in after ensures !(roots[j] < p) {
      if p !in now {
        NoneAbove(roots, i, {j}, p);
        assert j in {j} && !InRoots(roots, {j}, p);
      }
    }
    if roots[i] !in now {
      forall p | p in after ensures !(roots[i] < p) {
        if roots[i] < p && p in now { NothingBelow(now, roots[i], p); }
      }
    }
  }

  function Calls(roots: seq<Path>, k: nat): nat
    requires k <= |roots|
  {
    if k == 0 then 0 else Calls(roots, k - 1) + RootCalls(roots[k - 1])
  }

  /** The failing call is the stat that follows the mkdir of root k. */
  predicate FailsAtStat(roots: seq<Path>, fuse: Option<nat>, k: nat) {
    k < |roots| && fuse == Some(Calls(roots, k) + 2 * |roots[k]|)
  }

  /** The making gets as far as root k, and its stat fails. */
  predicate LeaksAt(fs: Tree, roots: seq<Path>, fuse: Option<nat>, k: nat)
    requires Unnested(roots)
  {
    k < 3 && FreeUpto(fs, roots, k + 1) && FailsAtStat(roots, fuse, k)
  }

  /** The failing call leaves a root behind that the cleanup does not know. */
  ghost predicate LeakPoint(fs: Tree, roots: seq<Path>, fuse: Option<nat>)
    requires Unnested(roots)
  {
    exists k: nat :: LeaksAt(fs, roots, fuse, k)
  }

  /** How the making of the roots ended: identities kept for the cleanup, and descriptors opened. */
  datatype Roots = Roots(ok: bool, recorded: nat, held: nat, leaked: bool)

  function MadeBy(r: Roots): set<nat> {
    Upto(if r.leaked then r.recorded + 1 else r.recorded)
  }

  method MakeRoots(disk: Disk, roots: seq<Path>) returns (r: Roots)
    requires Unnested(roots) && Rooted(disk.fs)
    modifies disk
    ensures Rooted(disk.fs) && r.recorded <= 3 && (r.leaked ==> !r.ok && r.recorded < 3) && (r.ok ==> r.recorded == 3 && r.held == 3)
    ensures old(disk.fuse).None? ==> disk.fuse.None?
    ensures r.held <= r.recorded <= r.held + 1
    ensures Grown(old(disk.fs), disk.fs, roots, MadeBy(r)) && Bare(disk.fs, roots, MadeBy(r))
    ensures r.ok <==> FreeUpto(old(disk.fs), roots, 3) && Enough(old(disk.fuse), Calls(roots, 3))
    ensures r.ok ==> disk.fuse == Spent(old(disk.fuse), Calls(roots, 3))
    ensures r.leaked <==> LeakPoint(old(disk.fs), roots, old(disk.fuse))
    ensures r.leaked ==> LeaksAt(old(disk.fs), roots, old(disk.fuse), r.recorded)
  {
    hide Rooted, Grown, Bare, AddsWay, Free, FreeUpto, FailsAtStat, LeaksAt, LeakPoint, Enough, Spent, Calls, RootCalls;
    ghost var before, start := disk.fs, disk.fuse;
    StartRoots(before, roots);
    NoCalls(before, roots, start);
    r := Roots(true, 3, 3, false);
    for i := 0 to 3
      invariant Rooted(disk.fs) && Grown(before, disk.fs, roots, Upto(i)) && Bare(disk.fs, roots, Upto(i))
      invariant start.None? ==> disk.fuse.None?
      invariant FreeUpto(before, roots, i) && Enough(start, Calls(roots, i)) && disk.fuse == Spent(start, Calls(roots, i))
    {
      ghost var now := disk.fs;
      StillFree(before, now, roots, Upto(i), i);
      FreeNext(before, roots, i);
      var one := disk.MakeRoot(roots[i]);
      RootMade(before, now, disk.fs, roots, i, one);
      if Free(before, roots[i]) { Budget(before, roots, start, i, one); } else { Blocked(before, roots, start, i); }
      if one != Opened {
        return Roots(false, if one == Recorded then i + 1 else i, i, one == Unrecorded);
      }
    }
    NoLeak(before, roots, start);
  }

  lemma FreeNext(fs: Tree, roots: seq<Path>, i: nat)
    requires Unnested(roots) && i < 3 && FreeUpto(fs, roots, i)
    ensures FreeUpto(fs, roots, i + 1) <==> Free(fs, roots[i])
    ensures FreeUpto(fs, roots, 3) ==> Free(fs, roots[i])
  {
  }

  /** Where root i is blocked no stat fails any more, neither before nor after. */
  lemma Blocked(fs: Tree, roots: seq<Path>, start: Option<nat>, i: nat)
    requires Unnested(roots) && i < 3 && Enough(start, Calls(roots, i)) && !Free(fs, roots[i])
    ensures !LeakPoint(fs, roots, start)
  {
    hide Free;
    CallsOfThree(roots);
    forall k: nat ensures !LeaksAt(fs, roots, start, k) {
      if k < i { assert !FailsAtStat(roots, start, k); }
    }
  }

  lemma RootMade(before: Tree, now: Tree, after: Tree, roots: seq<Path>, i: nat, one: Rooting)
    requires Unnested(roots) && i < 3 && Grown(before, now, roots, Upto(i)) && Bare(now, roots, Upto(i)) && Rooted(now)
    requires AddsWay(now, after, roots[i])
    requires one == Absent ==> (roots[i] in after <==> roots[i] in now)
    requires one != Absent ==> roots[i] !in now && roots[i] in after
    ensures one == Absent ==> Grown(before, after, roots, Upto(i)) && Bare(after, roots, Upto(i))
    ensures one != Absent ==> Grown(before, after, roots, Upto(i + 1)) && Bare(after, roots, Upto(i + 1))
  {
    hide Rooted, Grown, Bare, AddsWay;
    GrownMore(before, now, after, roots, Upto(i), i);
    BareMore(now, after, roots, Upto(i), i);
    assert Upto(i) + {i} == Upto(i + 1);
  }

  lemma StartRoots(fs: Tree, roots: seq<Path>)
    ensures Grown(fs, fs, roots, Upto(0)) && Bare(fs, roots, Upto(0))
  {
  }

  lemma NoCalls(fs: Tree, roots: seq<Path>, fuse: Option<nat>)
    requires Unnested(roots)
    ensures FreeUpto(fs, roots, 0)
    ensures Enough(fuse, Calls(roots, 0)) && Spent(fuse, Calls(roots, 0)) == fuse
  {
  }

  lemma NoLeak(fs: Tree, roots: seq<Path>, start: Option<nat>)
    requires Unnested(roots) && Enough(start, Calls(roots, 3))
    ensures !LeakPoint(fs, roots, start)
  {
    hide Free;
    CallsOfThree(roots);
  }

  lemma CallsOfThree(roots: seq<Path>)
    requires |roots| == 3
    ensures Calls(roots, 0) == 0 && Calls(roots, 1) == RootCalls(roots[0])
    ensures Calls(roots, 2) == RootCalls(roots[0]) + RootCalls(roots[1])
    ensures Calls(roots, 3) == RootCalls(roots[0]) + RootCalls(roots[1]) + RootCalls(roots[2])
  {
  }

  /** How the fuse decides about one root settles the whole outcome, or leaves it to the next root. */
  lemma Budget(fs: Tree, roots: seq<Path>, start: Option<nat>, i: nat, one: Rooting)
    requires Unnested(roots) && i < 3 && FreeUpto(fs, roots, i + 1) && Enough(start, Calls(roots, i))
    requires one == Unrecorded <==> Spent(start, Calls(roots, i)) == Some(2 * |roots[i]|)
    requires one == Opened <==> Enough(Spent(start, Calls(roots, i)), RootCalls(roots[i]))
    ensures one == Unrecorded ==> LeaksAt(fs, roots, start, i) && LeakPoint(fs, roots, start)
    ensures one == Opened ==>
              && Enough(start, Calls(roots, i + 1))
              && Spent(start, Calls(roots, i + 1)) == Spent(Spent(start, Calls(roots, i)), RootCalls(roots[i]))
    ensures one != Opened ==> !Enough(start, Calls(roots, 3))
    ensures one != Opened && one != Unrecorded ==> !LeakPoint(fs, roots, start)
  {
    hide Free;
    CallsOfThree(roots);
  }

  // ---------- taking them away again ----------

  /** The tree without `path` and everything in it. */
  function Lopped(fs: Tree, path: Path): Tree {
    map p | p in fs && !(path <= p) :: fs[p]
  }

  lemma LoppedRooted(fs: Tree, path: Path)
    requires Rooted(fs) && path != []
    ensures Rooted(Lopped(fs, path))
  {
    forall p | p in Lopped(fs, path) && p != [] ensures Up(p) in Lopped(fs, path) {
      assert path <= Up(p) ==> path <= p;
    }
  }

  lemma LoppedIsCut(fs: Tree, path: Path)
    ensures Lopped(fs, path) == Cut(fs, path) - {path}
  {
    assert forall p <- fs :: path <= p <==> path < p || path == p;
  }

  /** Lopping off a root that was made here undoes it and nothing else. */
  lemma LoppedGrown(before: Tree, now: Tree, roots: seq<Path>, made: set<nat>, i: nat)
    requires Unnested(roots) && i < 3 && i in made && Grown(before, now, roots, made) && Rooted(before)
    ensures Grown(before, Lopped(now, roots[i]), roots, made - {i})
  {
    forall p | p in before ensures !(roots[i] <= p) {
      if roots[i] <= p { NothingBelow(before, roots[i], p); }
    }
    forall p | p in now && !(roots[i] <= p) && InRoots(roots, made, p) ensures InRoots(roots, made - {i}, p) {
      var j :| j in made && j < |roots| && roots[j] <= p;
      assert j in made - {i};
    }
  }

  /** Stat, remove the contents if a descriptor is held, and remove the directory. */
  method RemoveRoot(disk: Disk, path: Path, held: bool)
    requires path != [] && Rooted(disk.fs) && path in disk.fs
    requires !held ==> forall p <- disk.fs :: !(path < p)
    modifies disk`fs
    ensures disk.fs == Lopped(old(disk.fs), path) && Rooted(disk.fs)
  {
    hide Rooted, Lopped;
    LoppedIsCut(disk.fs, path);
    LoppedRooted(disk.fs, path);
    if held {
      disk.RemoveContents(path);
    } else {
      EmptyIsCut(disk.fs, path);
    }
    disk.fs := disk.fs - {path};
  }

  lemma EmptyIsCut(fs: Tree, path: Path)
    requires forall p <- fs :: !(path < p)
    ensures Cut(fs, path) == fs
  {
  }

  /** The cleanup goes over the recorded roots only. */
  method Cleanup(disk: Disk, roots: seq<Path>, r: Roots, ghost before: Tree)
    requires Unnested(roots) && Rooted(before) && Rooted(disk.fs) && r.recorded <= 3 && r.held <= r.recorded <= r.held + 1
    requires Grown(before, disk.fs, roots, MadeBy(r)) && (r.leaked ==> r.recorded < 3)
    requires forall i :: 0 <= i < r.recorded ==> roots[i] in disk.fs
    requires r.held < r.recorded ==> forall p <- disk.fs :: !(roots[r.held] < p)
    modifies disk`fs
    ensures Rooted(disk.fs)
    ensures Grown(before, disk.fs, roots, if r.leaked then {r.recorded} else {})
    ensures r.leaked ==> forall p :: roots[r.recorded] <= p ==> (p in disk.fs <==> p in old(disk.fs))
    ensures forall p <- disk.fs :: p in old(disk.fs) && disk.fs[p] == old(disk.fs)[p]
  {
    hide Rooted, Grown;
    ghost var start := disk.fs;
    assert MadeBy(r) - Upto(0) == MadeBy(r);
    for i := 0 to r.recorded
      invariant Rooted(disk.fs) && Grown(before, disk.fs, roots, MadeBy(r) - Upto(i))
      invariant forall j :: i <= j < r.recorded ==> roots[j] in disk.fs
      invariant forall p <- disk.fs :: p in start && disk.fs[p] == start[p]
      invariant r.held < r.recorded ==> forall p <- disk.fs :: !(roots[r.held] < p)
      invariant r.leaked ==> forall p :: roots[r.recorded] <= p ==> (p in disk.fs <==> p in start)
    {
      ghost var now := disk.fs;
      LoppedGrown(before, now, roots, MadeBy(r) - Upto(i), i);
      LoppedOther(now, roots, i);
      assert MadeBy(r) - Upto(i) - {i} == MadeBy(r) - Upto(i + 1);
      RemoveRoot(disk, roots[i], i < r.held);
    }
    assert MadeBy(r) - Upto(r.recorded) == if r.leaked then {r.recorded} else {};
  }

  lemma LoppedOther(now: Tree, roots: seq<Path>, i: nat)
    requires Unnested(roots) && i < 3
    ensures forall j :: 0 <= j < 3 && j != i ==>
              forall p :: roots[j] <= p ==> (p in Lopped(now, roots[i]) <==> p in now)
    ensures forall p <- Lopped(now, roots[i]) :: p in now && Lopped(now, roots[i])[p] == now[p]
  {
    forall j | 0 <= j < 3 && j != i
      ensures forall p :: roots[j] <= p ==> (p in Lopped(now, roots[i]) <==> p in now)
    {
      forall p | p in now && roots[j] <= p ensures p in Lopped(now, roots[i]) {
        OneOnly(roots[j], roots[i], p);
      }
    }
  }
}
