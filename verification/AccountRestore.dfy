/** Filling the roots, and the whole of an installation with a failure injected at any call. */
module AccountRestore {
  import opened Wrappers
  import opened Octets
  import opened AccountArchive
  import opened AccountDisk
  import opened AccountInstall

  /** A validated file under its relative path. */
  datatype Item = Item(path: Path, data: seq<Octet>)

  function ScopeIndex(scope: string): (i: nat)
    ensures i < 3 && (scope in SCOPES ==> SCOPES[i] == scope)
  {
    if scope == "config" then 0 else if scope == "data" then 1 else 2
  }

  /** Where a relative path is installed. */
  function Place(roots: seq<Path>, rel: Path): Path
    requires |roots| == 3 && rel != []
  {
    roots[ScopeIndex(rel[0])] + rel[1..]
  }

  predicate Relatives(paths: seq<Path>) {
    forall p <- paths :: p != [] && p[0] in SCOPES
  }

  /**
   * What validation and the sort by depth give: distinct paths, shallower ones first, every
   * parent listed, the three scopes among them.
   */
  predicate Ordered(order: seq<Path>) {
    && Relatives(order) && (forall scope <- SCOPES :: [scope] in order)
    && (forall i, j :: 0 <= i < j < |order| ==> order[i] != order[j] && |order[i]| <= |order[j]|)
    && forall p {:trigger Up(p)} :: p in order && |p| > 1 ==> Up(p) in order
  }

  /** Validated files: distinct paths inside listed directories, none of them a directory. */
  predicate Fitting(order: seq<Path>, files: seq<Item>) {
    && (forall f <- files :: |f.path| > 1 && f.path[0] in SCOPES && Up(f.path) in order && f.path !in order)
    && forall i, j :: 0 <= i < j < |files| ==> files[i].path != files[j].path
  }

  function WithDirs(fs: Tree, roots: seq<Path>, order: seq<Path>): Tree
    requires |roots| == 3 && Relatives(order)
    decreases |order|
  {
    if order == [] then fs
    else
      assert order[|order| - 1] in order;
      assert forall p <- order[..|order| - 1] :: p in order;
      WithDirs(fs, roots, order[..|order| - 1])[Place(roots, order[|order| - 1]) := Dir]
  }

  predicate Named(files: seq<Item>) {
    forall f <- files :: f.path != [] && f.path[0] in SCOPES
  }

  function WithFiles(fs: Tree, roots: seq<Path>, files: seq<Item>): Tree
    requires |roots| == 3 && Named(files)
    decreases |files|
  {
    if files == [] then fs
    else
      var last := files[|files| - 1];
      assert last in files;
      assert forall f <- files[..|files| - 1] :: f in files;
      WithFiles(fs, roots, files[..|files| - 1])[Place(roots, last.path) := File(last.data)]
  }

  // ---------- places ----------

  lemma PlaceInjective(roots: seq<Path>, a: Path, b: Path)
    requires Unnested(roots) && a != [] && b != [] && a[0] in SCOPES && b[0] in SCOPES
    requires Place(roots, a) == Place(roots, b)
    ensures a == b
  {
    var i, j := ScopeIndex(a[0]), ScopeIndex(b[0]);
    var p := Place(roots, a);
    assert roots[i] <= p && roots[j] <= p;
    if i != j { OneOnly(roots[i], roots[j], p); }
    assert a[1..] == p[|roots[i]|..] == b[1..];
    assert a == [a[0]] + a[1..] && b == [b[0]] + b[1..];
  }

  lemma PlaceUp(roots: seq<Path>, rel: Path)
    requires Unnested(roots) && |rel| > 1
    ensures Place(roots, rel) != [] && Up(Place(roots, rel)) == Place(roots, Up(rel))
    ensures roots[ScopeIndex(rel[0])] < Place(roots, rel)
  {
    assert Up(rel)[1..] == rel[1..][..|rel| - 2];
  }

  lemma PlaceRoot(roots: seq<Path>, scope: string)
    requires |roots| == 3
    ensures Place(roots, [scope]) == roots[ScopeIndex(scope)]
  {
  }

  // ---------- what a tree with directories or files holds ----------

  lemma {:induction false} WithDirsHas(fs: Tree, roots: seq<Path>, order: seq<Path>, p: Path)
    requires |roots| == 3 && Relatives(order)
    ensures var t := WithDirs(fs, roots, order);
            && (p in t <==> p in fs || exists d <- order :: Place(roots, d) == p)
            && (p in t && t[p] != Dir ==> p in fs && t[p] == fs[p])
            && ((exists d <- order :: Place(roots, d) == p) ==> t[p] == Dir)
            && ((forall d <- order :: Place(roots, d) != p) && p in fs ==> t[p] == fs[p])
    decreases |order|
  {
    if order != [] {
      var init, last := order[..|order| - 1], order[|order| - 1];
      assert order == init + [last];
      assert last in order && forall d <- init :: d in order;
      WithDirsHas(fs, roots, init, p);
    }
  }

  lemma {:induction false} WithFilesHas(fs: Tree, roots: seq<Path>, files: seq<Item>, p: Path)
    requires |roots| == 3 && Named(files)
    ensures var t := WithFiles(fs, roots, files);
            && (p in t <==> p in fs || exists f <- files :: Place(roots, f.path) == p)
            && ((forall f <- files :: Place(roots, f.path) != p) && p in fs ==> t[p] == fs[p])
    decreases |files|
  {
    if files != [] {
      var init, last := files[..|files| - 1], files[|files| - 1];
      assert files == init + [last];
      assert last in files && forall f <- init :: f in files;
      WithFilesHas(fs, roots, init, p);
    }
  }

  // ---------- each call finds what it needs ----------

  /** The tree on which the filling starts: three empty roots that were not there before. */
  predicate Based(before: Tree, base: Tree, roots: seq<Path>) {
    Rooted(base) && Grown(before, base, roots, Upto(3)) && Bare(base, roots, Upto(3))
  }

  lemma RootThere(base: Tree, roots: seq<Path>, order: seq<Path>, scope: string)
    requires |roots| == 3 && Bare(base, roots, Upto(3)) && Relatives(order)
    ensures var t, p := WithDirs(base, roots, order), Place(roots, [scope]);
            p in t && t[p] == Dir
  {
    var i := ScopeIndex(scope);
    assert i in Upto(3);
    assert roots[i] in base && base[roots[i]] == Dir;
    PlaceRoot(roots, scope);
    hide Bare;
    WithDirsHas(base, roots, order, roots[i]);
  }

  lemma {:induction false} PrefixListed(order: seq<Path>, rel: Path, n: nat)
    requires Ordered(order) && rel in order && 1 <= n <= |rel|
    ensures rel[..n] in order
    decreases |rel| - n
  {
    if n == |rel| {
      assert rel[..n] == rel;
    } else {
      PrefixListed(order, rel, n + 1);
      assert Up(rel[..n + 1]) == rel[..n];
    }
  }

  lemma ListedEarlier(order: seq<Path>, i: nat, p: Path)
    requires Ordered(order) && i < |order| && p in order && |p| < |order[i]|
    ensures p in order[..i]
  {
    var k :| 0 <= k < |order| && order[k] == p;
    assert k < i;
    hide Ordered;
    assert order[..i][k] == p;
  }

  lemma RelativesPart(order: seq<Path>, i: nat)
    requires Relatives(order) && i <= |order|
    ensures Relatives(order[..i])
  {
    assert forall p <- order[..i] :: p in order;
  }

  /** Every shorter prefix of the i-th path is a directory by the time its turn comes. */
  lemma PrefixThere(base: Tree, roots: seq<Path>, order: seq<Path>, i: nat, n: nat)
    requires Unnested(roots) && Ordered(order) && i < |order| && 1 <= n < |order[i]|
    ensures Relatives(order[..i])
    ensures var t, p := WithDirs(base, roots, order[..i]), Place(roots, order[i][..n]);
            p in t && t[p] == Dir
  {
    RelativesPart(order, i);
    PrefixListed(order, order[i], n);
    ListedEarlier(order, i, order[i][..n]);
    WithDirsHas(base, roots, order[..i], Place(roots, order[i][..n]));
  }

  /** Nothing stands yet where the i-th path goes. */
  lemma PlaceEmpty(base: Tree, roots: seq<Path>, order: seq<Path>, i: nat)
    requires Unnested(roots) && Ordered(order) && i < |order| && |order[i]| > 1 && Bare(base, roots, Upto(3))
    ensures Relatives(order[..i]) && Place(roots, order[i]) !in WithDirs(base, roots, order[..i])
  {
    RelativesPart(order, i);
    NewPlace(base, roots, order[..i], order[i]);
  }

  lemma NewPlace(base: Tree, roots: seq<Path>, listed: seq<Path>, rel: Path)
    requires Unnested(roots) && Relatives(listed) && rel !in listed && |rel| > 1 && rel[0] in SCOPES
    requires Bare(base, roots, Upto(3))
    ensures Place(roots, rel) !in WithDirs(base, roots, listed)
  {
    var p := Place(roots, rel);
    PlaceUp(roots, rel);
    assert ScopeIndex(rel[0]) in Upto(3);
    forall d | d in listed ensures Place(roots, d) != p {
      if Place(roots, d) == p { PlaceInjective(roots, d, rel); }
    }
    WithDirsHas(base, roots, listed, p);
  }

  /** Adding a node inside a root keeps the tree rooted and the growth confined. */
  lemma GrownInside(before: Tree, now: Tree, roots: seq<Path>, rel: Path, node: Node)
    requires Unnested(roots) && Rooted(now) && Grown(before, now, roots, Upto(3)) && |rel| > 1
    ensures Place(roots, rel) != []
    ensures var p := Place(roots, rel);
            p !in now && Up(p) in now && now[Up(p)] == Dir ==>
              Rooted(now[p := node]) && Grown(before, now[p := node], roots, Upto(3))
  {
    hide Rooted, Grown;
    PlaceUp(roots, rel);
    var p := Place(roots, rel);
    if p !in now && Up(p) in now && now[Up(p)] == Dir {
      RootedMore(now, p, node);
      GrownAt(before, now, roots, ScopeIndex(rel[0]), p, node);
    }
  }

  lemma GrownAt(before: Tree, now: Tree, roots: seq<Path>, i: nat, p: Path, node: Node)
    requires |roots| == 3 && i < 3 && Grown(before, now, roots, Upto(3)) && p !in now && roots[i] < p
    ensures Grown(before, now[p := node], roots, Upto(3))
  {
    assert i in Upto(3) && InRoots(roots, Upto(3), p);
    hide InRoots, OnTheWay;
  }

  // ---------- filling ----------

  /** Opens every directory between the root and the last part of `rel`. */
  method OpenInner(disk: Disk, roots: seq<Path>, rel: Path) returns (ok: bool)
    requires |roots| == 3 && |rel| > 1
    modifies disk`fuse
    ensures LeadsTo(disk.fs, roots, rel) ==> (ok <==> Enough(old(disk.fuse), |rel| - 1))
    ensures ok ==> disk.fuse == Spent(old(disk.fuse), |rel| - 1)
  {
    hide Place;
    ok := disk.Call();
    if !ok { return; }
    for n := 2 to |rel|
      invariant ok && Enough(old(disk.fuse), n - 1) && disk.fuse == Spent(old(disk.fuse), n - 1)
    {
      ok := disk.OpenDir(Place(roots, rel[..n]));
      if !ok { return; }
    }
  }

  /** The directories above `rel` are there. */
  predicate LeadsTo(fs: Tree, roots: seq<Path>, rel: Path)
    requires |roots| == 3
  {
    forall n :: 1 <= n < |rel| ==> Place(roots, rel[..n]) in fs && fs[Place(roots, rel[..n])] == Dir
  }

  method MakeOne(disk: Disk, roots: seq<Path>, rel: Path, ghost before: Tree) returns (ok: bool)
    requires Unnested(roots) && Rooted(disk.fs) && Grown(before, disk.fs, roots, Upto(3))
    requires |rel| > 1 && LeadsTo(disk.fs, roots, rel) && Place(roots, rel) !in disk.fs
    modifies disk
    ensures Rooted(disk.fs) && Grown(before, disk.fs, roots, Upto(3))
    ensures old(disk.fs).Keys <= disk.fs.Keys
    ensures ok ==> disk.fs == old(disk.fs)[Place(roots, rel) := Dir] && disk.fuse == Spent(old(disk.fuse), |rel|)
    ensures ok <==> Enough(old(disk.fuse), |rel|)
  {
    hide Rooted, Grown;
    PlaceUp(roots, rel);
    assert Up(rel) == rel[..|rel| - 1];
    GrownInside(before, disk.fs, roots, rel, Dir);
    SpentSum(disk.fuse, |rel| - 1, 1);
    ok := OpenInner(disk, roots, rel);
    if !ok { return; }
    var made := disk.Mkdir(Place(roots, rel));
    ok := made == Done;
  }

  method MakeFile(disk: Disk, roots: seq<Path>, f: Item, ghost before: Tree) returns (ok: bool)
    requires Unnested(roots) && Rooted(disk.fs) && Grown(before, disk.fs, roots, Upto(3))
    requires |f.path| > 1 && LeadsTo(disk.fs, roots, f.path) && Place(roots, f.path) !in disk.fs
    modifies disk
    ensures Rooted(disk.fs) && Grown(before, disk.fs, roots, Upto(3))
    ensures old(disk.fs).Keys <= disk.fs.Keys
    ensures ok ==> disk.fs == old(disk.fs)[Place(roots, f.path) := File(f.data)] && disk.fuse == Spent(old(disk.fuse), |f.path|)
    ensures ok <==> Enough(old(disk.fuse), |f.path|)
  {
    hide Rooted, Grown;
    PlaceUp(roots, f.path);
    assert Up(f.path) == f.path[..|f.path| - 1];
    GrownInside(before, disk.fs, roots, f.path, File(f.data));
    SpentSum(disk.fuse, |f.path| - 1, 1);
    ok := OpenInner(disk, roots, f.path);
    if !ok { return; }
    ok := disk.WriteNew(Place(roots, f.path), f.data);
  }

  /** A directory below a root takes a descriptor, one open for each directory in between, and the mkdir. */
  function DirCalls(order: seq<Path>): nat {
    if order == [] then 0
    else
      var last := order[|order| - 1];
      DirCalls(order[..|order| - 1]) + if |last| > 1 then |last| else 0
  }

  /** A file takes as many, and its writing. */
  function FileCalls(files: seq<Item>): nat {
    if files == [] then 0 else FileCalls(files[..|files| - 1]) + |files[|files| - 1].path|
  }

  lemma DirCallsNext(order: seq<Path>, i: nat, fuse: Option<nat>)
    requires i < |order|
    ensures var calls := if |order[i]| > 1 then |order[i]| else 0;
            && DirCalls(order[..i + 1]) == DirCalls(order[..i]) + calls
            && (Enough(fuse, DirCalls(order[..i + 1])) <==> Enough(fuse, DirCalls(order[..i])) && Enough(Spent(fuse, DirCalls(order[..i])), calls))
            && Spent(fuse, DirCalls(order[..i + 1])) == Spent(Spent(fuse, DirCalls(order[..i])), calls)
  {
    assert order[..i + 1][..i] == order[..i];
    SpentSum(fuse, DirCalls(order[..i]), if |order[i]| > 1 then |order[i]| else 0);
  }

  lemma FileCallsNext(files: seq<Item>, k: nat, fuse: Option<nat>)
    requires k < |files|
    ensures var calls := |files[k].path|;
            && FileCalls(files[..k + 1]) == FileCalls(files[..k]) + calls
            && (Enough(fuse, FileCalls(files[..k + 1])) <==> Enough(fuse, FileCalls(files[..k])) && Enough(Spent(fuse, FileCalls(files[..k])), calls))
            && Spent(fuse, FileCalls(files[..k + 1])) == Spent(Spent(fuse, FileCalls(files[..k])), calls)
  {
    assert files[..k + 1][..k] == files[..k];
    SpentSum(fuse, FileCalls(files[..k]), |files[k].path|);
  }

  lemma {:induction false} DirCallsGrow(order: seq<Path>, i: nat)
    requires i <= |order|
    ensures DirCalls(order[..i]) <= DirCalls(order)
    decreases |order|
  {
    if i < |order| {
      assert order[..|order| - 1][..i] == order[..i];
      DirCallsGrow(order[..|order| - 1], i);
    } else {
      assert order[..i] == order;
    }
  }

  lemma {:induction false} FileCallsGrow(files: seq<Item>, k: nat)
    requires k <= |files|
    ensures FileCalls(files[..k]) <= FileCalls(files)
    decreases |files|
  {
    if k < |files| {
      assert files[..|files| - 1][..k] == files[..k];
      FileCallsGrow(files[..|files| - 1], k);
    } else {
      assert files[..k] == files;
    }
  }

  lemma NotEnough(fuse: Option<nat>, a: nat, b: nat)
    requires !Enough(fuse, a) && a <= b
    ensures !Enough(fuse, b)
  {
  }

  lemma NoDirCalls()
    ensures DirCalls([]) == 0 && FileCalls([]) == 0
  {
  }

  lemma NoneSpent(fuse: Option<nat>)
    ensures Enough(fuse, 0) && Spent(fuse, 0) == fuse && Spent(None, 0) == None
  {
  }

  method MakeDirs(disk: Disk, roots: seq<Path>, order: seq<Path>, ghost before: Tree) returns (ok: bool)
    requires Unnested(roots) && Based(before, disk.fs, roots) && Ordered(order)
    modifies disk
    ensures Rooted(disk.fs) && Grown(before, disk.fs, roots, Upto(3))
    ensures old(disk.fs).Keys <= disk.fs.Keys
    ensures ok ==> disk.fs == WithDirs(old(disk.fs), roots, order) && disk.fuse == Spent(old(disk.fuse), DirCalls(order))
    ensures ok <==> Enough(old(disk.fuse), DirCalls(order))
  {
    hide Rooted, Grown, Bare, WithDirs, Ordered, Place, LeadsTo, DirCalls, Enough, Spent;
    ghost var base, start := disk.fs, disk.fuse;
    NoneSpent(start);
    NoDirCalls();
    OrderedRelatives(order);
    NoDirs(base, roots);
    RelativesPart(order, 0);
    for i := 0 to |order|
      invariant old(disk.fs).Keys <= disk.fs.Keys
      invariant Rooted(disk.fs) && Grown(before, disk.fs, roots, Upto(3))
      invariant Relatives(order[..i]) && disk.fs == WithDirs(base, roots, order[..i])
      invariant Enough(start, DirCalls(order[..i])) && disk.fuse == Spent(start, DirCalls(order[..i]))
    {
      var rel := order[i];
      DirCallsNext(order, i, start);
      NoneSpent(disk.fuse);
      assert rel in order;
      DirsNext(base, roots, order, i);
      if |rel| == 1 {
        RootThere(base, roots, order[..i], rel[0]);
        assert rel == [rel[0]];
        continue;
      }
      DirReady(base, roots, order, i);
      ok := MakeOne(disk, roots, rel, before);
      if !ok {
        DirCallsGrow(order, i + 1);
        NotEnough(start, DirCalls(order[..i + 1]), DirCalls(order));
        return;
      }
    }
    assert order[..|order|] == order;
    ok := true;
  }

  lemma DirReady(base: Tree, roots: seq<Path>, order: seq<Path>, i: nat)
    requires Unnested(roots) && Ordered(order) && i < |order| && |order[i]| > 1 && Bare(base, roots, Upto(3))
    ensures Relatives(order[..i]) && LeadsTo(WithDirs(base, roots, order[..i]), roots, order[i])
    ensures Place(roots, order[i]) !in WithDirs(base, roots, order[..i])
  {
    RelativesPart(order, i);
    hide Unnested, Ordered, WithDirs, Bare;
    forall n | 1 <= n < |order[i]|
      ensures var t, p := WithDirs(base, roots, order[..i]), Place(roots, order[i][..n]); p in t && t[p] == Dir
    {
      PrefixThere(base, roots, order, i, n);
    }
    PlaceEmpty(base, roots, order, i);
  }

  lemma OrderedRelatives(order: seq<Path>)
    requires Ordered(order)
    ensures Relatives(order)
  {
  }

  lemma NoDirs(fs: Tree, roots: seq<Path>)
    requires |roots| == 3
    ensures WithDirs(fs, roots, []) == fs
  {
  }

  lemma DirsNext(fs: Tree, roots: seq<Path>, order: seq<Path>, i: nat)
    requires |roots| == 3 && Relatives(order) && i < |order|
    ensures Relatives(order[..i]) && Relatives(order[..i + 1]) && order[i] in order
    ensures WithDirs(fs, roots, order[..i + 1]) == WithDirs(fs, roots, order[..i])[Place(roots, order[i]) := Dir]
  {
    RelativesPart(order, i);
    RelativesPart(order, i + 1);
    assert order[..i + 1][..i] == order[..i];
  }

  lemma FittingNamed(order: seq<Path>, files: seq<Item>, k: nat)
    requires Fitting(order, files) && k <= |files|
    ensures Named(files) && Named(files[..k])
  {
    assert forall f <- files[..k] :: f in files;
  }

  lemma FilesNext(fs: Tree, roots: seq<Path>, files: seq<Item>, k: nat)
    requires |roots| == 3 && k < |files| && Named(files) && Named(files[..k]) && Named(files[..k + 1])
    ensures WithFiles(fs, roots, files[..k + 1]) == WithFiles(fs, roots, files[..k])[Place(roots, files[k].path) := File(files[k].data)]
  {
    assert files[..k + 1][..k] == files[..k];
  }

  lemma NoFiles(fs: Tree, roots: seq<Path>)
    requires |roots| == 3
    ensures WithFiles(fs, roots, []) == fs
  {
  }

  /** A listed directory is still one after some files were written. */
  lemma DirStays(base: Tree, roots: seq<Path>, order: seq<Path>, files: seq<Item>, k: nat, d: Path)
    requires Unnested(roots) && Relatives(order) && Fitting(order, files) && k <= |files| && d in order
    ensures Named(files[..k])
    ensures var t, p := WithFiles(WithDirs(base, roots, order), roots, files[..k]), Place(roots, d); p in t && t[p] == Dir
  {
    FittingNamed(order, files, k);
    WithDirsHas(base, roots, order, Place(roots, d));
    ClearOfFiles(roots, order, files, k, d);
    hide WithDirs, WithFiles, Place;
    WithFilesHas(WithDirs(base, roots, order), roots, files[..k], Place(roots, d));
  }

  /** The directories above a file's place are there when its turn comes. */
  lemma FileLeads(base: Tree, roots: seq<Path>, order: seq<Path>, files: seq<Item>, k: nat, rel: Path, n: nat)
    requires Unnested(roots) && Ordered(order) && Fitting(order, files) && k <= |files|
    requires |rel| > 1 && Up(rel) in order && 1 <= n < |rel|
    ensures Relatives(order) && Named(files[..k])
    ensures var t, p := WithFiles(WithDirs(base, roots, order), roots, files[..k]), Place(roots, rel[..n]); p in t && t[p] == Dir
  {
    hide WithDirs, WithFiles, Place, Ordered, Fitting;
    OrderedRelatives(order);
    FittingNamed(order, files, k);
    PrefixListed(order, Up(rel), n);
    assert Up(rel)[..n] == rel[..n];
    DirStays(base, roots, order, files, k, rel[..n]);
  }

  /** Nothing stands yet where a file goes. */
  lemma FileEmpty(base: Tree, roots: seq<Path>, order: seq<Path>, files: seq<Item>, k: nat)
    requires Unnested(roots) && Ordered(order) && Fitting(order, files) && k < |files| && Bare(base, roots, Upto(3))
    ensures Relatives(order) && Named(files[..k]) && files[k].path != []
    ensures Place(roots, files[k].path) !in WithFiles(WithDirs(base, roots, order), roots, files[..k])
  {
    OrderedRelatives(order);
    FittingNamed(order, files, k);
    assert files[k] in files;
    NewPlace(base, roots, order, files[k].path);
    OthersElsewhere(roots, order, files, k);
    hide WithDirs, WithFiles, Place, Ordered, Fitting, Bare;
    WithFilesHas(WithDirs(base, roots, order), roots, files[..k], Place(roots, files[k].path));
  }

  lemma FileReady(base: Tree, roots: seq<Path>, order: seq<Path>, files: seq<Item>, k: nat)
    requires Unnested(roots) && Ordered(order) && Fitting(order, files) && k < |files| && Bare(base, roots, Upto(3))
    ensures Relatives(order) && Named(files[..k]) && |files[k].path| > 1
    ensures var t := WithFiles(WithDirs(base, roots, order), roots, files[..k]);
            LeadsTo(t, roots, files[k].path) && Place(roots, files[k].path) !in t
  {
    assert files[k] in files;
    var rel := files[k].path;
    assert Up(rel) in order && |rel| > 1;
    FileEmpty(base, roots, order, files, k);
    hide WithDirs, WithFiles, Bare, Place, Ordered, Fitting;
    forall n | 1 <= n < |rel|
      ensures var t, p := WithFiles(WithDirs(base, roots, order), roots, files[..k]), Place(roots, rel[..n]); p in t && t[p] == Dir
    {
      FileLeads(base, roots, order, files, k, rel, n);
    }
  }

  lemma ClearOfFiles(roots: seq<Path>, order: seq<Path>, files: seq<Item>, k: nat, d: Path)
    requires Unnested(roots) && Relatives(order) && Fitting(order, files) && k <= |files| && d in order
    ensures forall f <- files[..k] :: Place(roots, f.path) != Place(roots, d)
  {
    forall f | f in files[..k] ensures Place(roots, f.path) != Place(roots, d) {
      assert f in files;
      if Place(roots, f.path) == Place(roots, d) { PlaceInjective(roots, f.path, d); }
    }
  }

  lemma OthersElsewhere(roots: seq<Path>, order: seq<Path>, files: seq<Item>, k: nat)
    requires Unnested(roots) && Fitting(order, files) && k < |files|
    ensures forall f <- files[..k] :: f.path != [] && Place(roots, f.path) != Place(roots, files[k].path)
  {
    assert files[k] in files;
    forall f | f in files[..k] ensures f.path != [] && Place(roots, f.path) != Place(roots, files[k].path) {
      var j :| 0 <= j < k && files[..k][j] == f;
      assert files[j] == f && f in files;
      if Place(roots, f.path) == Place(roots, files[k].path) { PlaceInjective(roots, f.path, files[k].path); }
    }
  }

  method MakeFiles(disk: Disk, roots: seq<Path>, order: seq<Path>, files: seq<Item>,
                   ghost before: Tree, ghost base: Tree) returns (ok: bool)
    requires Unnested(roots) && Ordered(order) && Fitting(order, files) && Bare(base, roots, Upto(3))
    requires Rooted(disk.fs) && Grown(before, disk.fs, roots, Upto(3))
    requires Relatives(order) && Named(files) && disk.fs == WithDirs(base, roots, order)
    modifies disk
    ensures Rooted(disk.fs) && Grown(before, disk.fs, roots, Upto(3))
    ensures old(disk.fs).Keys <= disk.fs.Keys
    ensures ok ==> disk.fs == WithFiles(WithDirs(base, roots, order), roots, files) && disk.fuse == Spent(old(disk.fuse), FileCalls(files))
    ensures ok <==> Enough(old(disk.fuse), FileCalls(files))
  {
    hide Rooted, Grown, Bare, WithDirs, WithFiles, Ordered, Fitting, Place, LeadsTo, FileCalls, Enough, Spent;
    ghost var dirs, start := disk.fs, disk.fuse;
    NoneSpent(start);
    NoDirCalls();
    NoFiles(dirs, roots);
    FittingNamed(order, files, 0);
    for k := 0 to |files|
      invariant old(disk.fs).Keys <= disk.fs.Keys
      invariant Rooted(disk.fs) && Grown(before, disk.fs, roots, Upto(3))
      invariant Named(files[..k]) && disk.fs == WithFiles(dirs, roots, files[..k])
      invariant Enough(start, FileCalls(files[..k])) && disk.fuse == Spent(start, FileCalls(files[..k]))
    {
      FileCallsNext(files, k, start);
      FittingNamed(order, files, k + 1);
      FileReady(base, roots, order, files, k);
      FilesNext(dirs, roots, files, k);
      ok := MakeFile(disk, roots, files[k], before);
      if !ok {
        FileCallsGrow(files, k + 1);
        NotEnough(start, FileCalls(files[..k + 1]), FileCalls(files));
        return;
      }
    }
    assert files[..|files|] == files;
    ok := true;
  }

  // ---------- the whole installation ----------

  /** The tree after a success: the way to the roots, the roots, and exactly the validated entries. */
  ghost predicate Installed(before: Tree, now: Tree, roots: seq<Path>, order: seq<Path>, files: seq<Item>)
    requires |roots| == 3 && Relatives(order) && Named(files)
  {
    exists base: Tree :: Based(before, base, roots) && now == WithFiles(WithDirs(base, roots, order), roots, files)
  }

  /** Three descriptors are synced at the end. */
  method SyncRoots(disk: Disk) returns (ok: bool)
    modifies disk`fuse
    ensures ok <==> Enough(old(disk.fuse), 3)
  {
    ok := true;
    for i := 0 to 3
      invariant ok && Enough(old(disk.fuse), i) && disk.fuse == Spent(old(disk.fuse), i)
    {
      ok := disk.Call();
      if !ok { return; }
    }
  }

  /** Every call that an installation makes. */
  function AllCalls(roots: seq<Path>, order: seq<Path>, files: seq<Item>): nat
    requires |roots| == 3
  {
    Calls(roots, 3) + DirCalls(order) + FileCalls(files) + 3
  }

  lemma Budgets(roots: seq<Path>, order: seq<Path>, files: seq<Item>, fuse: Option<nat>)
    requires |roots| == 3
    ensures var a, b, c := Calls(roots, 3), DirCalls(order), FileCalls(files);
            Enough(fuse, AllCalls(roots, order, files)) <==>
            && Enough(fuse, a) && Enough(Spent(fuse, a), b) && Enough(Spent(Spent(fuse, a), b), c)
            && Enough(Spent(Spent(Spent(fuse, a), b), c), 3)
  {
    hide Calls, DirCalls, FileCalls;
    var a, b, c := Calls(roots, 3), DirCalls(order), FileCalls(files);
    SpentSum(fuse, a, b);
    SpentSum(fuse, a + b, c);
    SpentSum(fuse, a + b + c, 3);
  }

  /**
   * _install with a failure injected at any call, and nobody else at work. Success leaves exactly
   * the validated tree. Failure leaves everything that was there, takes the roots away and leaves
   * at most the directories on the way to them; the one exception is the root whose stat failed.
   */
  method Install(disk: Disk, roots: seq<Path>, order: seq<Path>, files: seq<Item>)
    returns (ok: bool, ghost leaked: Option<nat>)
    requires Unnested(roots) && Rooted(disk.fs) && Ordered(order) && Fitting(order, files)
    modifies disk
    ensures Rooted(disk.fs) && Relatives(order) && Named(files)
    ensures ok ==> leaked.None? && Installed(old(disk.fs), disk.fs, roots, order, files)
    ensures !ok && leaked.None? ==> Grown(old(disk.fs), disk.fs, roots, {})
    ensures !ok && leaked.Some? ==>
              && leaked.value < 3 && Grown(old(disk.fs), disk.fs, roots, {leaked.value})
              && Bare(disk.fs, roots, {leaked.value})
    ensures leaked.Some? <==> LeakPoint(old(disk.fs), roots, old(disk.fuse))
    ensures leaked.Some? ==> LeaksAt(old(disk.fs), roots, old(disk.fuse), leaked.value)
    ensures ok <==> FreeUpto(old(disk.fs), roots, 3) && Enough(old(disk.fuse), AllCalls(roots, order, files))
  {
    hide Rooted, Grown, Bare, WithDirs, WithFiles, Ordered, Fitting, Place, FreeUpto, LeaksAt, LeakPoint, Calls, Free,
      Enough, Spent, AllCalls, DirCalls, FileCalls;
    Budgets(roots, order, files, disk.fuse);
    OrderedRelatives(order);
    FittingNamed(order, files, 0);
    ghost var before := disk.fs;
    var r := MakeRoots(disk, roots);
    leaked := if r.leaked then Some(r.recorded) else None;
    ok := r.ok;
    RootsMade(disk.fs, roots, r);
    if ok {
      ghost var base := disk.fs;
      ok := MakeDirs(disk, roots, order, before);
      if ok {
        ok := MakeFiles(disk, roots, order, files, before, base);
        if ok { ok := SyncRoots(disk); }
      }
    }
    if !ok {
      ghost var failed := disk.fs;
      Cleanup(disk, roots, r, before);
      if r.leaked { LeakedBare(failed, disk.fs, roots, r); }
    }
  }

  lemma RootsMade(fs: Tree, roots: seq<Path>, r: Roots)
    requires |roots| == 3 && Bare(fs, roots, MadeBy(r)) && r.recorded <= 3
    ensures forall i :: 0 <= i < r.recorded ==> roots[i] in fs
    ensures forall i :: 0 <= i < r.recorded ==> forall p <- fs :: !(roots[i] < p)
  {
    assert forall i: nat :: i < r.recorded ==> i in MadeBy(r);
  }

  lemma LeakedBare(failed: Tree, now: Tree, roots: seq<Path>, r: Roots)
    requires |roots| == 3 && r.leaked && r.recorded < 3 && Bare(failed, roots, MadeBy(r))
    requires forall p :: roots[r.recorded] <= p ==> (p in now <==> p in failed)
    requires forall p <- now :: p in failed && now[p] == failed[p]
    ensures Bare(now, roots, {r.recorded})
  {
    assert r.recorded in MadeBy(r);
  }

  /** A clean rollback: no root is left and nothing in one; all the rest is as before but for ways. */
  lemma RolledBack(before: Tree, now: Tree, roots: seq<Path>, p: Path)
    requires Unnested(roots) && Rooted(before) && Grown(before, now, roots, {})
    requires forall i :: 0 <= i < 3 ==> roots[i] !in before
    ensures (exists i :: 0 <= i < 3 && roots[i] <= p) ==> p !in now
    ensures p in before ==> p in now && now[p] == before[p]
    ensures p in now && p !in before ==> now[p] == Dir && OnTheWay(roots, p)
  {
    forall i | 0 <= i < 3 && roots[i] <= p ensures p !in now {
      NotOnTheWay(roots, i, p);
      NothingBelow(before, roots[i], p);
    }
  }

  /** After a success each root holds exactly the validated directories and files, with their contents. */
  lemma InstalledExactly(before: Tree, now: Tree, roots: seq<Path>, order: seq<Path>, files: seq<Item>, i: nat, p: Path)
    requires Unnested(roots) && Rooted(before) && Ordered(order) && Fitting(order, files) && Relatives(order) && Named(files)
    requires Installed(before, now, roots, order, files) && i < 3 && roots[i] <= p
    ensures p in now <==> (exists d <- order :: Place(roots, d) == p) || (exists f <- files :: Place(roots, f.path) == p)
    ensures (exists d <- order :: Place(roots, d) == p) ==> p in now && now[p] == Dir
  {
    hide Based, WithDirs, WithFiles, Place, Ordered, Fitting, Rooted;
    var base: Tree :| Based(before, base, roots) && now == WithFiles(WithDirs(base, roots, order), roots, files);
    InRootHas(before, base, roots, order, files, i, p);
  }

  lemma InRootHas(before: Tree, base: Tree, roots: seq<Path>, order: seq<Path>, files: seq<Item>, i: nat, p: Path)
    requires Unnested(roots) && Ordered(order) && Fitting(order, files) && Relatives(order) && Named(files)
    requires Based(before, base, roots) && i < 3 && roots[i] <= p
    ensures var now := WithFiles(WithDirs(base, roots, order), roots, files);
            && (p in now <==> (exists d <- order :: Place(roots, d) == p) || (exists f <- files :: Place(roots, f.path) == p))
            && ((exists d <- order :: Place(roots, d) == p) ==> p in now && now[p] == Dir)
  {
    hide WithDirs, WithFiles, Based, Place, Ordered, Fitting;
    if p in base { BaseInRoot(before, base, roots, order, i, p); }
    assert files[..|files|] == files;
    WithDirsHas(base, roots, order, p);
    WithFilesHas(WithDirs(base, roots, order), roots, files, p);
    if d :| d in order && Place(roots, d) == p {
      DirStays(base, roots, order, files, |files|, d);
    }
  }

  /** Of the base tree only the root itself lies in the root, and it is listed. */
  lemma BaseInRoot(before: Tree, base: Tree, roots: seq<Path>, order: seq<Path>, i: nat, p: Path)
    requires Unnested(roots) && Based(before, base, roots) && Ordered(order) && i < 3 && roots[i] <= p && p in base
    ensures exists d <- order :: Place(roots, d) == p
  {
    assert i in Upto(3) && !(roots[i] < p);
    assert p == roots[i];
    assert SCOPES[i] in SCOPES && [SCOPES[i]] in order;
    PlaceRoot(roots, SCOPES[i]);
    assert ScopeIndex(SCOPES[i]) == i;
  }

  lemma {:induction false} WithFilesData(fs: Tree, roots: seq<Path>, files: seq<Item>, k: nat)
    requires Unnested(roots) && Named(files) && k < |files|
    requires forall a, b :: 0 <= a < b < |files| ==> files[a].path != files[b].path
    ensures files[k].path != []
    ensures var t, p := WithFiles(fs, roots, files), Place(roots, files[k].path); p in t && t[p] == File(files[k].data)
    decreases |files|
  {
    hide Place;
    var n := |files| - 1;
    var init, last := files[..n], files[n];
    assert last in files && files[k] in files;
    assert forall f <- init :: f in files;
    if k < n {
      WithFilesData(fs, roots, init, k);
      assert init[k] == files[k];
      if Place(roots, files[k].path) == Place(roots, last.path) { PlaceInjective(roots, files[k].path, last.path); }
    }
  }

  /** Every validated file is there with its own contents. */
  lemma InstalledContents(before: Tree, now: Tree, roots: seq<Path>, order: seq<Path>, files: seq<Item>, k: nat)
    requires Unnested(roots) && Ordered(order) && Fitting(order, files) && Relatives(order) && Named(files)
    requires Installed(before, now, roots, order, files) && k < |files|
    ensures files[k].path != []
    ensures var p := Place(roots, files[k].path); p in now && now[p] == File(files[k].data)
  {
    var base: Tree :| Based(before, base, roots) && now == WithFiles(WithDirs(base, roots, order), roots, files);
    WithFilesData(WithDirs(base, roots, order), roots, files, k);
  }

  // ---------- from a validated snapshot ----------

  function PathOf(name: string): Path {
    if Relative(name).Some? then Relative(name).value else []
  }

  /** Distinct paths, none deeper than a later one. */
  predicate Depths(order: seq<Path>) {
    forall i, j :: 0 <= i < j < |order| ==> order[i] != order[j] && |order[i]| <= |order[j]|
  }

  /** The depth sort of the directory names: any arrangement of them by number of parts. */
  ghost predicate DepthSorted(names: seq<string>, order: seq<Path>) {
    && (forall p :: p in order <==> exists name <- names :: PathOf(name) == p)
    && Depths(order)
  }

  function Items(entries: seq<Entry>): (items: seq<Item>)
    ensures |items| == |entries|
    ensures forall k :: 0 <= k < |items| ==>
              items[k] == Item(PathOf(entries[k].path), if entries[k].data.Some? then entries[k].data.value else [])
  {
    seq(|entries|, k requires 0 <= k < |entries| =>
      Item(PathOf(entries[k].path), if entries[k].data.Some? then entries[k].data.value else []))
  }

  lemma PathInjective(a: string, b: string)
    requires Relative(a).Some? && Relative(b).Some? && PathOf(a) == PathOf(b)
    ensures a == b && SafePath(PathOf(a))
  {
    RelativeIff(a, PathOf(a));
    RelativeIff(b, PathOf(b));
  }

  lemma ScopePath(scope: string)
    requires scope in SCOPES
    ensures Relative(scope) == Some([scope])
  {
    assert '/' !in scope && SafePart(scope) && '\\' !in scope && '\0' !in scope;
    SplitOne(scope);
  }

  /** What validation admits is what the installation needs, in any order that sorts by depth. */
  lemma AdmissibleOrdered(names: seq<string>, entries: seq<Entry>, order: seq<Path>)
    requires Admissible(names, entries) && DepthSorted(names, order)
    ensures Ordered(order)
  {
    hide Relative, Parent, GoodFile, Total;
    forall p | p in order ensures p != [] && p[0] in SCOPES {
      var name :| name in names && PathOf(name) == p;
      PathInjective(name, name);
    }
    forall scope | scope in SCOPES ensures [scope] in order {
      ScopePath(scope);
      assert scope in names && PathOf(scope) == [scope];
    }
    forall p | p in order && |p| > 1 ensures Up(p) in order {
      var name :| name in names && PathOf(name) == p;
      ParentPath(name);
      DotIsNothing();
      assert HasParent(name, set n <- names);
      assert Parent(name) in names && PathOf(Parent(name)) == Up(p);
    }
  }

  lemma DotIsNothing()
    ensures Relative(".") == None
  {
    SplitOne(".");
    assert !SafePart(".") && "." in Split(".");
  }

  lemma AdmissibleFits(names: seq<string>, entries: seq<Entry>, order: seq<Path>)
    requires Admissible(names, entries) && DepthSorted(names, order)
    ensures Fitting(order, Items(entries))
  {
    hide Relative, Parent, Total, ClosedUp;
    var files := Items(entries);
    forall k | 0 <= k < |files|
      ensures var f := files[k]; |f.path| > 1 && f.path[0] in SCOPES && Up(f.path) in order && f.path !in order
    {
      var e := entries[k];
      assert e in entries && GoodFile(e, set name <- names);
      PathInjective(e.path, e.path);
      ParentPath(e.path);
      assert PathOf(Parent(e.path)) == Up(files[k].path);
      forall name | name in names ensures PathOf(name) != files[k].path {
        if PathOf(name) == files[k].path { PathInjective(name, e.path); }
      }
    }
    forall i, j | 0 <= i < j < |files| ensures files[i].path != files[j].path {
      assert entries[i] in entries && entries[j] in entries;
      assert GoodFile(entries[i], set name <- names) && GoodFile(entries[j], set name <- names);
      if files[i].path == files[j].path { PathInjective(entries[i].path, entries[j].path); }
    }
  }

  // ---------- the restore ----------

  lemma InsertedAt(order: seq<Path>, k: nat, p: Path, j: nat)
    requires k <= |order| && j <= |order|
    ensures (order[..k] + [p] + order[k..])[j] == if j < k then order[j] else if j == k then p else order[j - 1]
  {
  }

  lemma InsertDepths(order: seq<Path>, k: nat, p: Path)
    requires Depths(order) && p !in order && k <= |order| && (forall i :: 0 <= i < k ==> |order[i]| <= |p|)
    requires k < |order| ==> |p| < |order[k]|
    ensures Depths(order[..k] + [p] + order[k..])
  {
    var more := order[..k] + [p] + order[k..];
    forall i, j | 0 <= i < j < |more| ensures more[i] != more[j] && |more[i]| <= |more[j]| {
      InsertedAt(order, k, p, i);
      InsertedAt(order, k, p, j);
    }
  }

  lemma InsertMembers(order: seq<Path>, k: nat, p: Path)
    requires k <= |order|
    ensures forall q :: q in order[..k] + [p] + order[k..] <==> q == p || q in order
  {
    assert order == order[..k] + order[k..];
  }

  /** Puts a path behind those that are no deeper. */
  method Insert(order: seq<Path>, p: Path) returns (more: seq<Path>)
    requires Depths(order) && p !in order
    ensures Depths(more) && forall q :: q in more <==> q == p || q in order
  {
    hide Depths;
    var k := 0;
    while k < |order| && |order[k]| <= |p|
      invariant 0 <= k <= |order| && forall i :: 0 <= i < k ==> |order[i]| <= |p|
    {
      k := k + 1;
    }
    InsertDepths(order, k, p);
    InsertMembers(order, k, p);
    more := order[..k] + [p] + order[k..];
  }

  /** The directories, shallower ones first. */
  method SortByDepth(names: seq<string>) returns (order: seq<Path>)
    requires (forall name <- names :: Relative(name).Some?) && Distinct(names)
    ensures DepthSorted(names, order)
  {
    hide Relative;
    order := [];
    for i := 0 to |names|
      invariant DepthSorted(names[..i], order)
    {
      var p := PathOf(names[i]);
      assert p !in order by {
        if name :| name in names[..i] && PathOf(name) == p { PathInjective(name, names[i]); }
      }
      order := Insert(order, p);
      assert names[..i + 1] == names[..i] + [names[i]];
    }
    assert names[..|names|] == names;
  }

  /**
   * Validation, the sort by depth and the installation. A snapshot that is not admissible touches
   * nothing; an admissible one is installed exactly if the three places are free and no call fails.
   */
  method Restore(disk: Disk, roots: seq<Path>, names: seq<string>, entries: seq<Entry>)
    returns (ok: bool, ghost order: seq<Path>, ghost leaked: Option<nat>)
    requires Unnested(roots) && Rooted(disk.fs)
    modifies disk
    ensures !Admissible(names, entries) ==> !ok && leaked.None? && disk.fs == old(disk.fs) && disk.fuse == old(disk.fuse)
    ensures Admissible(names, entries) ==>
              && DepthSorted(names, order) && Relatives(order) && Named(Items(entries))
              && (ok <==> FreeUpto(old(disk.fs), roots, 3) && Enough(old(disk.fuse), AllCalls(roots, order, Items(entries))))
              && (ok ==> Installed(old(disk.fs), disk.fs, roots, order, Items(entries)))
              && (leaked.Some? <==> LeakPoint(old(disk.fs), roots, old(disk.fuse)))
              && (leaked.Some? ==> LeaksAt(old(disk.fs), roots, old(disk.fuse), leaked.value) && Bare(disk.fs, roots, {leaked.value}))
              && (!ok ==> Grown(old(disk.fs), disk.fs, roots, if leaked.None? then {} else {leaked.value}))
    ensures Rooted(disk.fs)
  {
    hide Rooted, Grown, Bare, FreeUpto, LeaksAt, LeakPoint, Calls, Enough, Spent, AllCalls, DepthSorted, Ordered, Fitting, Relatives,
      Named, Installed;
    ok, order, leaked := false, [], None;
    var tree := Validate(names, entries);
    if tree.None? { return; }
    AdmissibleNames(names, entries);
    hide Admissible, Distinct, Relative;
    var sorted := SortByDepth(names);
    order := sorted;
    AdmissibleOrdered(names, entries, order);
    AdmissibleFits(names, entries, order);
    ok, leaked := Install(disk, roots, sorted, Items(entries));
  }

  lemma AdmissibleNames(names: seq<string>, entries: seq<Entry>)
    requires Admissible(names, entries)
    ensures (forall name <- names :: Relative(name).Some?) && Distinct(names)
  {
  }

  /** After a restore every file of the snapshot is there with its own contents. */
  lemma RestoredContents(before: Tree, now: Tree, roots: seq<Path>, names: seq<string>, entries: seq<Entry>, order: seq<Path>, k: nat)
    requires Unnested(roots) && Admissible(names, entries) && DepthSorted(names, order) && k < |entries|
    requires Relatives(order) && Named(Items(entries)) && Installed(before, now, roots, order, Items(entries))
    ensures Relative(entries[k].path).Some? && entries[k].data.Some?
    ensures var rel := Relative(entries[k].path).value;
            rel != [] && rel[0] in SCOPES && var p := Place(roots, rel); p in now && now[p] == File(entries[k].data.value)
  {
    assert entries[k] in entries && GoodFile(entries[k], set name <- names);
    PathInjective(entries[k].path, entries[k].path);
    AdmissibleOrdered(names, entries, order);
    AdmissibleFits(names, entries, order);
    hide Admissible, Relative, Installed, Place, Ordered, Fitting, DepthSorted;
    assert Items(entries)[k] in Items(entries);
    InstalledContents(before, now, roots, order, Items(entries), k);
  }

  /** Where the scopes are installed: config, data and state, in the order of the roots. */
  lemma PlaceOf(roots: seq<Path>, rest: Path)
    requires |roots| == 3
    ensures Place(roots, ["config"] + rest) == roots[0] + rest
    ensures Place(roots, ["data"] + rest) == roots[1] + rest
    ensures Place(roots, ["state"] + rest) == roots[2] + rest
  {
    assert (["config"] + rest)[1..] == rest && (["data"] + rest)[1..] == rest && (["state"] + rest)[1..] == rest;
    assert "config"[0] == 'c' && "data"[0] == 'd' && "state"[0] == 's';
  }
}
