/** What a restore leaves on the disk, in plain terms: names, places and contents. */
module AccountOutcome {
  import opened Wrappers
  import opened Octets
  import opened AccountArchive
  import opened AccountDisk
  import opened AccountInstall
  import opened AccountRestore

  /** Where each scope is installed. */
  datatype Homes = Homes(config: Path, data: Path, state: Path)

  function RootsOf(h: Homes): (roots: seq<Path>)
    ensures |roots| == 3
  {
    [h.config, h.data, h.state]
  }

  /** Where a name of the snapshot is installed. */
  function Target(h: Homes, name: string): Path {
    var parts := Split(name);
    (if parts[0] == "config" then h.config else if parts[0] == "data" then h.data else h.state) + parts[1..]
  }

  /** Not there yet, and no file on the way. */
  predicate Vacant(fs: Tree, root: Path) {
    root !in fs && forall p <- fs :: p < root ==> fs[p] == Dir
  }

  predicate AllVacant(fs: Tree, h: Homes) {
    Vacant(fs, h.config) && Vacant(fs, h.data) && Vacant(fs, h.state)
  }

  predicate Leads(h: Homes, p: Path) { p < h.config || p < h.data || p < h.state }

  predicate IsHome(h: Homes, p: Path) { p == h.config || p == h.data || p == h.state }

  ghost predicate Holds(fs: Tree, h: Homes, names: seq<string>, entries: seq<Entry>) {
    && (forall name <- names :: Target(h, name) in fs && fs[Target(h, name)] == Dir)
    && (forall e <- entries :: e.data.Some? && Target(h, e.path) in fs && fs[Target(h, e.path)] == File(e.data.value))
  }

  ghost predicate Claimed(h: Homes, names: seq<string>, entries: seq<Entry>, p: Path) {
    (exists name <- names :: Target(h, name) == p) || exists e <- entries :: Target(h, e.path) == p
  }

  lemma VacantIff(fs: Tree, root: Path)
    requires root != []
    ensures Free(fs, root) <==> Vacant(fs, root)
  {
    var up := Up(root);
    if Free(fs, root) {
      forall p | p in fs && p < root ensures fs[p] == Dir {
        assert p == root[..|p|] == up[..|p|];
      }
    }
    if Vacant(fs, root) {
      forall k | 0 <= k <= |up| && up[..k] in fs ensures fs[up[..k]] == Dir {
        assert up[..k] < root;
      }
    }
  }

  lemma FreeIff(fs: Tree, h: Homes)
    requires Unnested(RootsOf(h))
    ensures FreeUpto(fs, RootsOf(h), 3) <==> AllVacant(fs, h)
  {
    var roots := RootsOf(h);
    hide Free, Vacant;
    assert roots[0] == h.config && roots[1] == h.data && roots[2] == h.state;
    VacantIff(fs, roots[0]);
    VacantIff(fs, roots[1]);
    VacantIff(fs, roots[2]);
  }

  /** An accepted name goes where the installation puts its path. */
  lemma TargetIs(h: Homes, name: string)
    requires Relative(name).Some?
    ensures PathOf(name) != [] && Place(RootsOf(h), PathOf(name)) == Target(h, name)
    ensures exists i :: 0 <= i < 3 && RootsOf(h)[i] <= Target(h, name)
  {
    SpelledIff(name);
    var parts := Split(name);
    RelativePlainly(name, parts);
    var roots := RootsOf(h);
    PlaceOf(roots, parts[1..]);
    assert parts == [parts[0]] + parts[1..];
    hide Relative, Split, Place;
    var i := if parts[0] == "config" then 0 else if parts[0] == "data" then 1 else 2;
    assert roots[i] <= Target(h, name);
  }

  lemma NamesAccepted(names: seq<string>, entries: seq<Entry>)
    requires Admissible(names, entries)
    ensures forall name <- names :: Relative(name).Some?
    ensures forall e <- entries :: Relative(e.path).Some? && e.data.Some?
  {
    hide Relative;
  }

  /** The directories of the installation are those that were listed. */
  lemma DirsClaimed(h: Homes, names: seq<string>, order: seq<Path>, p: Path)
    requires (forall name <- names :: Relative(name).Some?) && DepthSorted(names, order) && Relatives(order)
    ensures (exists d <- order :: Place(RootsOf(h), d) == p) <==> (exists name <- names :: Target(h, name) == p)
  {
    hide Relative, PathOf, Place, Target, RootsOf;
    if d :| d in order && Place(RootsOf(h), d) == p {
      var name :| name in names && PathOf(name) == d;
      TargetIs(h, name);
    }
    if name :| name in names && Target(h, name) == p {
      TargetIs(h, name);
      assert PathOf(name) in order;
    }
  }

  /** And so are its files. */
  lemma FilesClaimed(h: Homes, entries: seq<Entry>, p: Path)
    requires (forall e <- entries :: Relative(e.path).Some?) && Named(Items(entries))
    ensures (exists f <- Items(entries) :: Place(RootsOf(h), f.path) == p) <==> (exists e <- entries :: Target(h, e.path) == p)
  {
    hide Relative, PathOf, Place, Target, RootsOf;
    var files := Items(entries);
    if f :| f in files && Place(RootsOf(h), f.path) == p {
      var k :| 0 <= k < |files| && files[k] == f;
      assert entries[k] in entries;
      TargetIs(h, entries[k].path);
    }
    if e :| e in entries && Target(h, e.path) == p {
      var k :| 0 <= k < |entries| && entries[k] == e;
      assert files[k] in files;
      TargetIs(h, e.path);
    }
  }

  /** After a success the roots hold exactly what was listed. */
  lemma InHomes(before: Tree, now: Tree, h: Homes, names: seq<string>, entries: seq<Entry>, order: seq<Path>, i: nat, p: Path)
    requires Unnested(RootsOf(h)) && Rooted(before) && Admissible(names, entries) && DepthSorted(names, order)
    requires Relatives(order) && Named(Items(entries)) && Installed(before, now, RootsOf(h), order, Items(entries))
    requires i < 3 && RootsOf(h)[i] <= p
    ensures p in now <==> (exists name <- names :: Target(h, name) == p) || exists e <- entries :: Target(h, e.path) == p
    ensures (exists name <- names :: Target(h, name) == p) ==> p in now && now[p] == Dir
  {
    hide *;
    NamesAccepted(names, entries);
    AdmissibleOrdered(names, entries, order);
    AdmissibleFits(names, entries, order);
    InstalledExactly(before, now, RootsOf(h), order, Items(entries), i, p);
    DirsClaimed(h, names, order, p);
    FilesClaimed(h, entries, p);
  }

  lemma HeldAfter(before: Tree, now: Tree, h: Homes, names: seq<string>, entries: seq<Entry>, order: seq<Path>)
    requires Unnested(RootsOf(h)) && Rooted(before) && Admissible(names, entries) && DepthSorted(names, order)
    requires Relatives(order) && Named(Items(entries)) && Installed(before, now, RootsOf(h), order, Items(entries))
    ensures Holds(now, h, names, entries)
  {
    hide Admissible, Relative, Installed, Target, DepthSorted, Relatives, Named, Rooted, Unnested, RootsOf, Items;
    NamesAccepted(names, entries);
    forall name | name in names ensures Target(h, name) in now && now[Target(h, name)] == Dir {
      TargetIs(h, name);
      var i :| 0 <= i < 3 && RootsOf(h)[i] <= Target(h, name);
      InHomes(before, now, h, names, entries, order, i, Target(h, name));
    }
    forall k | 0 <= k < |entries| ensures var e := entries[k]; e.data.Some? && Target(h, e.path) in now && now[Target(h, e.path)] == File(e.data.value) {
      RestoredContents(before, now, RootsOf(h), names, entries, order, k);
      assert entries[k] in entries;
      TargetIs(h, entries[k].path);
    }
  }

  lemma LeadsIff(h: Homes, p: Path)
    ensures OnTheWay(RootsOf(h), p) <==> Leads(h, p)
  {
    var roots := RootsOf(h);
    if Leads(h, p) {
      assert p < roots[0] || p < roots[1] || p < roots[2];
    }
  }

  lemma NotInside(roots: seq<Path>, made: set<nat>, p: Path)
    requires |roots| == 3 && forall i :: 0 <= i < 3 ==> !(roots[i] <= p)
    ensures !InRoots(roots, made, p)
  {
  }

  lemma BaseOutside(before: Tree, base: Tree, h: Homes, p: Path)
    requires Based(before, base, RootsOf(h)) && forall i :: 0 <= i < 3 ==> !(RootsOf(h)[i] <= p)
    ensures p in before ==> p in base && base[p] == before[p]
    ensures p in base ==> p in before || (base[p] == Dir && Leads(h, p))
  {
    hide Rooted, Bare, RootsOf, Leads, OnTheWay, InRoots;
    LeadsIff(h, p);
    NotInside(RootsOf(h), Upto(3), p);
  }

  /** Outside the roots nothing but the way to them is new, and nothing is gone or changed. */
  lemma OutsideHomes(before: Tree, now: Tree, h: Homes, order: seq<Path>, files: seq<Item>, p: Path)
    requires Unnested(RootsOf(h)) && Rooted(before) && Relatives(order) && Named(files)
    requires Installed(before, now, RootsOf(h), order, files)
    requires forall i :: 0 <= i < 3 ==> !(RootsOf(h)[i] <= p)
    ensures p in before ==> p in now && now[p] == before[p]
    ensures p in now ==> p in before || (now[p] == Dir && Leads(h, p))
  {
    var roots := RootsOf(h);
    hide WithDirs, WithFiles, Place, Rooted, Unnested, Based, Leads, RootsOf;
    var base: Tree :| Based(before, base, roots) && now == WithFiles(WithDirs(base, roots, order), roots, files);
    BaseOutside(before, base, h, p);
    forall d | d in order ensures Place(roots, d) != p { PlaceInside(roots, d); }
    forall f | f in files ensures Place(roots, f.path) != p { PlaceInside(roots, f.path); }
    WithDirsHas(base, roots, order, p);
    WithFilesHas(WithDirs(base, roots, order), roots, files, p);
  }

  lemma PlaceInside(roots: seq<Path>, rel: Path)
    requires |roots| == 3 && rel != []
    ensures exists i :: 0 <= i < 3 && roots[i] <= Place(roots, rel)
  {
    assert roots[ScopeIndex(rel[0])] <= Place(roots, rel);
  }

  /** A root that is free has nothing in it. */
  lemma NothingInHomes(before: Tree, h: Homes, i: nat, p: Path)
    requires Unnested(RootsOf(h)) && Rooted(before) && FreeUpto(before, RootsOf(h), 3) && i < 3 && RootsOf(h)[i] <= p
    ensures p !in before
  {
    assert Free(before, RootsOf(h)[i]);
    NothingBelow(before, RootsOf(h)[i], p);
  }

  /** What a success leaves of the rest of the tree. */
  lemma RestAfter(before: Tree, now: Tree, h: Homes, names: seq<string>, entries: seq<Entry>, order: seq<Path>, p: Path)
    requires Unnested(RootsOf(h)) && Rooted(before) && Admissible(names, entries) && DepthSorted(names, order)
    requires Relatives(order) && Named(Items(entries)) && Installed(before, now, RootsOf(h), order, Items(entries))
    requires FreeUpto(before, RootsOf(h), 3)
    ensures p in before ==> p in now && now[p] == before[p]
    ensures p in now ==> p in before || (now[p] == Dir && Leads(h, p)) || Claimed(h, names, entries, p)
  {
    hide Rooted, Unnested, Admissible, DepthSorted, Relatives, Named, Installed, FreeUpto, Leads, Target, Items, RootsOf;
    if i :| 0 <= i < 3 && RootsOf(h)[i] <= p {
      InHomes(before, now, h, names, entries, order, i, p);
      NothingInHomes(before, h, i, p);
    } else {
      OutsideHomes(before, now, h, order, Items(entries), p);
    }
  }

  lemma LostRoot(now: Tree, roots: seq<Path>, leaked: Option<nat>, p: Path)
    requires |roots| == 3 && (leaked.Some? ==> leaked.value < 3 && Bare(now, roots, {leaked.value}))
    requires InRoots(roots, if leaked.None? then {} else {leaked.value}, p) && p in now
    ensures leaked.Some? && p == roots[leaked.value] && now[p] == Dir
  {
    var k := leaked.value;
    assert k in {k} && roots[k] in now && !(roots[k] < p);
  }

  /** What a failure leaves: the tree as it was, ways to the roots, and the one root it lost sight of. */
  lemma LeftBehind(before: Tree, now: Tree, h: Homes, leaked: Option<nat>, p: Path)
    requires Grown(before, now, RootsOf(h), if leaked.None? then {} else {leaked.value})
    requires leaked.Some? ==> leaked.value < 3 && Bare(now, RootsOf(h), {leaked.value})
    ensures p in before ==> p in now && now[p] == before[p]
    ensures p in now && p !in before ==>
              now[p] == Dir && (Leads(h, p) || (leaked.Some? && p == RootsOf(h)[leaked.value]))
  {
    hide RootsOf, Leads, OnTheWay, InRoots, Bare;
    LeadsIff(h, p);
    var made: set<nat> := if leaked.None? then {} else {leaked.value};
    if p in now && InRoots(RootsOf(h), made, p) { LostRoot(now, RootsOf(h), leaked, p); }
  }

  /** The call at which a root is lost: its stat, after all calls for the earlier roots. */
  lemma LostAt(fs: Tree, h: Homes, fuse: Option<nat>, k: nat)
    requires Unnested(RootsOf(h)) && LeaksAt(fs, RootsOf(h), fuse, k)
    ensures k < 3
    ensures k == 0 ==> fuse == Some(2 * |h.config|)
    ensures k == 1 ==> fuse == Some(2 * |h.config| + 3 + 2 * |h.data|)
    ensures k == 2 ==> fuse == Some(2 * |h.config| + 3 + 2 * |h.data| + 3 + 2 * |h.state|)
  {
    hide FreeUpto;
    CallsOfThree(RootsOf(h));
  }

  /** The homes are given, and none lies in another. */
  predicate Apart(h: Homes) {
    && h.config != [] && h.data != [] && h.state != []
    && !(h.config <= h.data) && !(h.config <= h.state) && !(h.data <= h.config)
    && !(h.data <= h.state) && !(h.state <= h.config) && !(h.state <= h.data)
  }

  lemma ApartIff(h: Homes)
    ensures Unnested(RootsOf(h)) <==> Apart(h)
  {
    var roots := RootsOf(h);
    assert roots[0] == h.config && roots[1] == h.data && roots[2] == h.state;
  }

  /**
   * A restore in plain terms. Nothing that was there is gone or changed, however it ends. After a
   * success every name stands at its place, a directory or a file with its contents, and nothing
   * else is new but the way to the three homes. After a failure only directories on that way are
   * new, and a home itself only if the one call failed that follows its making. Without failing
   * calls the restore succeeds exactly for a sound snapshot and vacant homes.
   */
  method RestoreAccount(disk: Disk, h: Homes, names: seq<string>, entries: seq<Entry>) returns (ok: bool)
    requires Apart(h) && Rooted(disk.fs)
    modifies disk
    ensures forall p <- old(disk.fs) :: p in disk.fs && disk.fs[p] == old(disk.fs)[p]
    ensures ok ==> Holds(disk.fs, h, names, entries)
    ensures ok ==> forall p <- disk.fs :: p in old(disk.fs) || (disk.fs[p] == Dir && Leads(h, p)) || Claimed(h, names, entries, p)
    ensures !ok ==> forall p <- disk.fs :: p in old(disk.fs) || (disk.fs[p] == Dir && (Leads(h, p) || IsHome(h, p)))
    ensures !ok && h.config in disk.fs && h.config !in old(disk.fs) ==> old(disk.fuse) == Some(2 * |h.config|)
    ensures !ok && h.data in disk.fs && h.data !in old(disk.fs) ==> old(disk.fuse) == Some(2 * |h.config| + 3 + 2 * |h.data|)
    ensures !ok && h.state in disk.fs && h.state !in old(disk.fs) ==>
              old(disk.fuse) == Some(2 * |h.config| + 3 + 2 * |h.data| + 3 + 2 * |h.state|)
    ensures ok ==> PlainSnapshot(names, entries) && AllVacant(old(disk.fs), h)
    ensures !PlainSnapshot(names, entries) ==> disk.fs == old(disk.fs)
    ensures old(disk.fuse).None? && PlainSnapshot(names, entries) && AllVacant(old(disk.fs), h) ==> ok
  {
    hide Rooted, Unnested, Admissible, PlainSnapshot, DepthSorted, Relatives, Named, Installed, FreeUpto, AllVacant, Leads, Claimed, Holds,
      Grown, Bare, LeakPoint, LeaksAt, AllCalls, Items, Apart;
    ghost var before, fuse := disk.fs, disk.fuse;
    ApartIff(h);
    AdmissibleIff(names, entries);
    FreeIff(before, h);
    ghost var order, leaked;
    ok, order, leaked := Restore(disk, RootsOf(h), names, entries);
    if ok {
      HeldAfter(before, disk.fs, h, names, entries, order);
      forall p: Path
        ensures p in before ==> p in disk.fs && disk.fs[p] == before[p]
        ensures p in disk.fs ==> p in before || (disk.fs[p] == Dir && Leads(h, p)) || Claimed(h, names, entries, p)
      {
        RestAfter(before, disk.fs, h, names, entries, order, p);
      }
    } else if PlainSnapshot(names, entries) {
      if leaked.Some? { LostAt(before, h, fuse, leaked.value); }
      forall p: Path
        ensures p in before ==> p in disk.fs && disk.fs[p] == before[p]
        ensures p in disk.fs && p !in before ==>
                  disk.fs[p] == Dir && (Leads(h, p) || (leaked.Some? && p == RootsOf(h)[leaked.value]))
      {
        LeftBehind(before, disk.fs, h, leaked, p);
      }
      HomesLeadNowhere(h);
    }
  }

  /** No home is on the way to another. */
  lemma HomesLeadNowhere(h: Homes)
    requires Apart(h)
    ensures !Leads(h, h.config) && !Leads(h, h.data) && !Leads(h, h.state)
    ensures h.config != h.data && h.config != h.state && h.data != h.state
  {
  }
}
