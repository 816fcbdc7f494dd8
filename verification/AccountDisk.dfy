/**
 * The file system that an installation works on, as a map from absolute paths to nodes, and the
 * calls it makes. `fuse` injects a failure: it counts the calls that still succeed.
 */
module AccountDisk {
  import opened Wrappers
  import opened Octets
  import opened AccountArchive

  datatype Node = Dir | File(data: seq<Octet>)

  type Tree = map<Path, Node>

  function Up(p: Path): Path
    requires p != []
  {
    p[..|p| - 1]
  }

  /** Every node lies in a directory. */
  predicate Rooted(fs: Tree) {
    && [] in fs && fs[[]] == Dir
    && forall p {:trigger Up(p)} :: p in fs && p != [] ==> Up(p) in fs && fs[Up(p)] == Dir
  }

  lemma {:induction false} NothingBelow(fs: Tree, root: Path, p: Path)
    requires Rooted(fs) && root !in fs && root <= p
    ensures p !in fs
    decreases |p|
  {
    if p in fs && p != root {
      assert root <= Up(p);
      NothingBelow(fs, root, Up(p));
    }
  }

  /** Nothing of `before` was touched. */
  predicate Keeps(before: Tree, now: Tree) {
    forall p <- before :: p in now && now[p] == before[p]
  }

  /** Only directories on the way to `path`, it included, were added. */
  predicate AddsWay(before: Tree, now: Tree, path: Path) {
    Keeps(before, now) && forall p <- now :: p in before || (p <= path && now[p] == Dir)
  }

  /** The first `i` components of `path` are directories. */
  predicate WayOpen(fs: Tree, path: Path, i: nat) {
    i <= |path| && forall k :: 0 <= k <= i ==> path[..k] in fs && fs[path[..k]] == Dir
  }

  /** No file stands among the first `i` components of `path`. */
  predicate WayClear(fs: Tree, path: Path, i: nat) {
    i <= |path| && forall k :: 0 <= k <= i && path[..k] in fs ==> fs[path[..k]] == Dir
  }

  lemma WayStart(fs: Tree, path: Path)
    requires Rooted(fs)
    ensures WayOpen(fs, path, 0) && WayClear(fs, path, 0) && AddsWay(fs, fs, path)
  {
    assert path[..0] == [];
  }

  /** Making the next component, or finding it, opens the way one further. */
  lemma WayNext(before: Tree, now: Tree, after: Tree, path: Path, i: nat)
    requires i < |path| && Rooted(now) && AddsWay(before, now, path) && WayOpen(now, path, i) && WayClear(before, path, i)
    requires after == now || (path[..i + 1] !in now && after == now[path[..i + 1] := Dir])
    ensures Up(path[..i + 1]) == path[..i] && Rooted(after) && AddsWay(before, after, path)
    ensures path[..i + 1] in after && after[path[..i + 1]] == Dir ==> WayOpen(after, path, i + 1) && WayClear(before, path, i + 1)
    ensures WayClear(before, path, |path|) && path[..i + 1] in now ==> now[path[..i + 1]] == Dir
  {
    hide Rooted;
    assert Up(path[..i + 1]) == path[..i];
    if path[..i + 1] !in now { RootedMore(now, path[..i + 1], Dir); }
    assert path[..i + 1] <= path;
    if path[..i + 1] in now && path[..i + 1] !in before { assert now[path[..i + 1]] == Dir; }
  }

  lemma RootedMore(fs: Tree, p: Path, node: Node)
    requires Rooted(fs) && p != [] && p !in fs && Up(p) in fs && fs[Up(p)] == Dir
    ensures Rooted(fs[p := node])
  {
  }

  datatype Made = Done | Exists | Error

  class Disk {
    var fs: Tree
    /** How many more calls succeed; afterwards every call fails. */
    var fuse: Option<nat>

    constructor (fs: Tree, fuse: Option<nat>)
      ensures this.fs == fs && this.fuse == fuse
    {
      this.fs := fs;
      this.fuse := fuse;
    }

    method Call() returns (ok: bool)
      modifies this`fuse
      ensures ok <==> old(fuse) != Some(0)
      ensures fuse == Spend(old(fuse))
    {
      ok := fuse != Some(0);
      fuse := Spend(fuse);
    }

    method Mkdir(p: Path) returns (r: Made)
      requires p != []
      modifies this
      ensures fuse == Spend(old(fuse))
      ensures r == Done ==> p !in old(fs) && fs == old(fs)[p := Dir] && Up(p) in old(fs) && old(fs)[Up(p)] == Dir
      ensures r == Exists ==> p in fs
      ensures r != Done ==> fs == old(fs)
      ensures old(fuse) != Some(0) && Up(p) in old(fs) && old(fs)[Up(p)] == Dir ==>
                r == if p in old(fs) then Exists else Done
      ensures old(fuse) == Some(0) ==> r == Error
    {
      var ok := Call();
      if !ok || Up(p) !in fs || fs[Up(p)] != Dir { return Error; }
      if p in fs { return Exists; }
      fs := fs[p := Dir];
      return Done;
    }

    /** _write_new: an exclusive create that takes its file back when writing fails. */
    method WriteNew(p: Path, data: seq<Octet>) returns (ok: bool)
      requires p != []
      modifies this
      ensures fuse == Spend(old(fuse))
      ensures ok ==> old(fuse) != Some(0)
      ensures ok ==> p !in old(fs) && fs == old(fs)[p := File(data)] && Up(p) in old(fs) && old(fs)[Up(p)] == Dir
      ensures !ok ==> fs == old(fs)
      ensures old(fuse) != Some(0) && Up(p) in old(fs) && old(fs)[Up(p)] == Dir && p !in old(fs) ==> ok
    {
      ok := Call();
      if !ok || Up(p) !in fs || fs[Up(p)] != Dir || p in fs { return false; }
      fs := fs[p := File(data)];
    }

    method OpenDir(p: Path) returns (ok: bool)
      modifies this`fuse
      ensures fuse == Spend(old(fuse))
      ensures ok <==> old(fuse) != Some(0) && p in fs && fs[p] == Dir
    {
      ok := Call();
      ok := ok && p in fs && fs[p] == Dir;
    }

    /** _directory with create: make and open every component on the way to `path`. */
    method OpenWay(path: Path) returns (ok: bool)
      requires Rooted(fs)
      modifies this
      ensures old(fuse).None? ==> fuse.None?
      ensures Rooted(fs) && AddsWay(old(fs), fs, path)
      ensures ok ==> WayOpen(fs, path, |path|) && fuse == Spent(old(fuse), 1 + 2 * |path|)
      ensures ok <==> Enough(old(fuse), 1 + 2 * |path|) && WayClear(old(fs), path, |path|)
    {
      hide Rooted, AddsWay, WayOpen, WayClear;
      WayStart(fs, path);
      RootIsDir(fs);
      ok := OpenDir([]);
      if !ok { return; }
      var i := 0;
      while i < |path|
        invariant 0 <= i <= |path| && Rooted(fs) && AddsWay(old(fs), fs, path) && ok
        invariant WayOpen(fs, path, i) && WayClear(old(fs), path, i)
        invariant old(fuse).None? ==> fuse.None?
        invariant Enough(old(fuse), 1 + 2 * i) && fuse == Spent(old(fuse), 1 + 2 * i)
      {
        ok := OpenNext(path, i, old(fs));
        if !ok { return; }
        i := i + 1;
      }
    }

    method OpenNext(path: Path, i: nat, ghost before: Tree) returns (ok: bool)
      requires i < |path| && Rooted(fs) && AddsWay(before, fs, path) && WayOpen(fs, path, i) && WayClear(before, path, i)
      modifies this
      ensures old(fuse).None? ==> fuse.None?
      ensures Rooted(fs) && AddsWay(before, fs, path)
      ensures ok ==> WayOpen(fs, path, i + 1) && WayClear(before, path, i + 1) && fuse == Spent(old(fuse), 2)
      ensures ok ==> Enough(old(fuse), 2)
      ensures !ok ==> !Enough(old(fuse), 2) || !WayClear(before, path, |path|)
    {
      hide Rooted, AddsWay, WayClear;
      WayNext(before, fs, fs, path, i);
      if path[..i + 1] !in fs { WayNext(before, fs, fs[path[..i + 1] := Dir], path, i); }
      assert path[..i] in fs && fs[path[..i]] == Dir;
      hide WayOpen;
      var r := Mkdir(path[..i + 1]);
      if r == Error { return false; }
      ok := OpenDir(path[..i + 1]);
    }

    /** One root: the way to it, the directory, its identity, and a descriptor on it. */
    method MakeRoot(path: Path) returns (r: Rooting)
      requires path != [] && Rooted(fs)
      modifies this
      ensures old(fuse).None? ==> fuse.None?
      ensures Rooted(fs) && AddsWay(old(fs), fs, path)
      ensures r == Absent ==> (path in fs <==> path in old(fs))
      ensures r != Absent ==> path !in old(fs) && path in fs && fs[path] == Dir
      ensures Free(old(fs), path) ==>
                && (r == Absent <==> !Enough(old(fuse), 2 * |path|))
                && (r == Unrecorded <==> old(fuse) == Some(2 * |path|))
                && (r == Recorded <==> Enough(old(fuse), 2 * |path| + 1) && !Enough(old(fuse), RootCalls(path)))
                && (r == Opened <==> Enough(old(fuse), RootCalls(path)))
                && (r == Opened ==> fuse == Spent(old(fuse), RootCalls(path)))
      ensures !Free(old(fs), path) ==> r == Absent
    {
      hide Rooted, AddsWay, WayOpen, WayClear;
      var way := Up(path);
      var ok := OpenWay(way);
      WayShort(old(fs), fs, path);
      if !ok { return Absent; }
      WayEnd(fs, way);
      RootAdded(old(fs), fs, path);
      var made := Mkdir(path);
      if made != Done { return Absent; }
      ok := Call();
      if !ok { return Unrecorded; }
      ok := OpenDir(path);
      if !ok { return Recorded; }
      ok := Call();
      return if ok then Opened else Recorded;
    }

    /** _remove_contents: everything strictly inside `path`, and nothing else. */
    method RemoveContents(path: Path)
      requires Rooted(fs) && path in fs
      modifies this`fs
      ensures Rooted(fs) && fs == Cut(old(fs), path)
      decreases Inside(fs, path)
    {
      hide Rooted, Cut;
      CutSelf(fs, path);
      while exists p <- fs :: Child(path, p)
        invariant Rooted(fs) && path in fs && Cut(fs, path) == Cut(old(fs), path)
        invariant Inside(fs, path) <= Inside(old(fs), path)
        decreases Inside(fs, path)
      {
        var name :| name in fs && Child(path, name);
        ghost var before := fs;
        ChildInside(fs, path, name);
        CutChild(before, path, name);
        if fs[name] == Dir {
          RemoveContents(name);
        } else {
          FileIsLeaf(fs, name);
        }
        RemoveLeaf(fs, before, path, name);
        fs := fs - {name};
      }
      NoChildren(fs, path);
    }
  }

  /** How far one root got. Only a recorded root is known to the cleanup. */
  datatype Rooting = Absent | Unrecorded | Recorded | Opened

  function RootCalls(path: Path): nat { 2 * |path| + 3 }

  /** Nothing stands at `path`, and no file on the way to it. */
  predicate Free(fs: Tree, path: Path)
    requires path != []
  {
    path !in fs && WayClear(fs, Up(path), |path| - 1)
  }

  lemma WayShort(before: Tree, now: Tree, path: Path)
    requires path != [] && AddsWay(before, now, Up(path))
    ensures AddsWay(before, now, path) && (path in now <==> path in before)
  {
    forall p | p in now && p <= Up(path) ensures p <= path && p != path {
      assert |p| <= |path| - 1;
      assert Up(path)[..|p|] == path[..|p|];
    }
  }

  lemma WayEnd(fs: Tree, way: Path)
    requires WayOpen(fs, way, |way|)
    ensures way in fs && fs[way] == Dir
  {
    assert way[..|way|] == way;
  }

  lemma RootAdded(before: Tree, now: Tree, path: Path)
    requires path != [] && AddsWay(before, now, path) && Rooted(now)
    ensures path !in now && Up(path) in now && now[Up(path)] == Dir ==>
              AddsWay(before, now[path := Dir], path) && Rooted(now[path := Dir])
  {
  }

  lemma RootIsDir(fs: Tree)
    requires Rooted(fs)
    ensures [] in fs && fs[[]] == Dir
  {
  }

  /** The fuse lets n more calls succeed. */
  predicate Enough(fuse: Option<nat>, n: nat) {
    fuse.None? || fuse.value >= n
  }

  function Spent(fuse: Option<nat>, n: nat): Option<nat>
  {
    if fuse.None? then None else if fuse.value < n then Some(0) else Some(fuse.value - n)
  }

  lemma SpentSum(fuse: Option<nat>, a: nat, b: nat)
    ensures Enough(fuse, a + b) <==> Enough(fuse, a) && Enough(Spent(fuse, a), b)
    ensures Spent(fuse, a + b) == Spent(Spent(fuse, a), b)
  {
  }

  // ---------- removal ----------

  function Inside(fs: Tree, path: Path): set<Path> {
    set p <- fs | path < p
  }

  /** The tree without what lies strictly inside `path`. */
  function Cut(fs: Tree, path: Path): Tree {
    map p | p in fs && !(path < p) :: fs[p]
  }

  predicate Child(path: Path, p: Path) {
    path < p && |p| == |path| + 1
  }

  lemma CutSelf(fs: Tree, path: Path)
    requires path in fs
    ensures path in Cut(fs, path)
  {
  }

  lemma ChildInside(fs: Tree, path: Path, name: Path)
    requires name in fs && Child(path, name)
    ensures Inside(fs, name) < Inside(fs, path)
  {
    assert name in Inside(fs, path);
    forall p | p in Inside(fs, name) ensures p in Inside(fs, path) {
      assert p[..|path|] == name[..|path|];
    }
  }

  /** Emptying a child leaves what is outside the parent as it was. */
  lemma CutChild(fs: Tree, path: Path, name: Path)
    requires name in fs && Child(path, name) && path in fs
    ensures Cut(Cut(fs, name), path) == Cut(fs, path) && path in Cut(fs, name) && name in Cut(fs, name)
    ensures Inside(Cut(fs, name), path) <= Inside(fs, path)
  {
    forall p | p in fs && name < p ensures path < p {
      assert p[..|path|] == name[..|path|];
    }
  }

  /** A file, or a directory that has been emptied, can go. */
  lemma RemoveLeaf(fs: Tree, before: Tree, path: Path, name: Path)
    requires Rooted(fs) && path in fs && name in fs && Child(path, name) && fs == Cut(before, name)
    ensures Rooted(fs - {name}) && path in fs - {name} && Cut(fs - {name}, path) == Cut(fs, path)
    ensures Inside(fs - {name}, path) < Inside(fs, path)
  {
    assert name in Inside(fs, path);
    NoneInside(before, name);
    RootedWithout(fs, name);
    hide Rooted, Cut;
    CutWithout(fs, path, name);
  }

  lemma NoneInside(fs: Tree, name: Path)
    ensures forall p <- Cut(fs, name) :: !(name < p)
  {
  }

  lemma RootedWithout(fs: Tree, name: Path)
    requires Rooted(fs) && name != [] && forall p <- fs :: !(name < p)
    ensures Rooted(fs - {name})
  {
    forall p | p in fs && p != [] ensures Up(p) != name {
      assert Up(p) < p;
    }
  }

  lemma CutWithout(fs: Tree, path: Path, name: Path)
    requires path < name
    ensures Cut(fs - {name}, path) == Cut(fs, path)
  {
  }

  lemma FileIsLeaf(fs: Tree, name: Path)
    requires Rooted(fs) && name in fs && fs[name] != Dir
    ensures fs == Cut(fs, name)
  {
    assert forall p <- fs :: Child(name, p) ==> Up(p) == name;
    NoChildren(fs, name);
  }

  lemma {:induction false} ChildOnTheWay(fs: Tree, path: Path, p: Path)
    requires Rooted(fs) && p in fs && path < p
    ensures p[..|path| + 1] in fs && Child(path, p[..|path| + 1])
    decreases |p|
  {
    if |p| == |path| + 1 {
      assert p[..|p|] == p;
    } else {
      assert path < Up(p);
      ChildOnTheWay(fs, path, Up(p));
      assert Up(p)[..|path| + 1] == p[..|path| + 1];
    }
  }

  lemma NoChildren(fs: Tree, path: Path)
    requires Rooted(fs) && !exists p <- fs :: Child(path, p)
    ensures fs == Cut(fs, path)
  {
    forall p | p in fs ensures !(path < p) {
      if path < p { ChildOnTheWay(fs, path, p); }
    }
  }
}
