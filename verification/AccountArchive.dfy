/** The paths and entries of an account snapshot, and the check that admits them. */
module AccountArchive {
  import opened Wrappers
  import opened Octets

  const SCOPES: seq<string> := ["config", "data", "state"]
  const MAX_DEPTH := 12
  const MAX_ENTRIES := 2048
  const MAX_BYTES: nat := 16 * 1024 * 1024
  const MAX_NAME := 512

  type Path = seq<string>

  // ---------- splitting at slashes ----------

  function Split(s: string): (parts: seq<string>)
    ensures parts != []
  {
    if s == [] then [""]
    else if s[0] == '/' then [""] + Split(s[1..])
    else
      var rest := Split(s[1..]);
      [[s[0]] + rest[0]] + rest[1..]
  }

  function Join(parts: seq<string>): string {
    if parts == [] then ""
    else if |parts| == 1 then parts[0]
    else parts[0] + "/" + Join(parts[1..])
  }

  lemma {:induction false} JoinSplit(s: string)
    ensures Join(Split(s)) == s && forall part <- Split(s) :: '/' !in part
    decreases |s|
  {
    if s != [] {
      JoinSplit(s[1..]);
      var rest := Split(s[1..]);
      if s[0] == '/' {
        assert ([""] + rest)[1..] == rest;
      } else {
        var first := [s[0]] + rest[0];
        assert Split(s) == [first] + rest[1..];
        assert Split(s)[1..] == rest[1..];
        if |rest| > 1 { assert first + "/" + Join(rest[1..]) == [s[0]] + (rest[0] + "/" + Join(rest[1..])); }
        assert forall part <- rest[1..] :: part in rest;
        assert rest[0] in rest;
      }
    }
  }

  lemma {:induction false} SplitHead(head: string, rest: string)
    requires '/' !in head
    ensures Split(head + "/" + rest) == [head] + Split(rest)
    decreases |head|
  {
    if head == [] {
      assert (head + "/" + rest)[1..] == rest;
    } else {
      SplitHead(head[1..], rest);
      assert head[0] in head && head == [head[0]] + head[1..];
      assert (head + "/" + rest)[1..] == head[1..] + "/" + rest;
      var tail := Split(head[1..] + "/" + rest);
      assert tail[1..] == Split(rest);
    }
  }

  lemma {:induction false} SplitOne(head: string)
    requires '/' !in head
    ensures Split(head) == [head]
    decreases |head|
  {
    if head != [] {
      assert head[0] in head && head == [head[0]] + head[1..];
      SplitOne(head[1..]);
    }
  }

  lemma {:induction false} SplitJoin(parts: seq<string>)
    requires parts != [] && forall part <- parts :: '/' !in part
    ensures Split(Join(parts)) == parts
    decreases |parts|
  {
    assert parts[0] in parts;
    if |parts| == 1 {
      SplitOne(parts[0]);
    } else {
      assert forall part <- parts[1..] :: part in parts;
      SplitJoin(parts[1..]);
      SplitHead(parts[0], Join(parts[1..]));
    }
  }

  // ---------- _relative ----------

  predicate SafePart(part: string) {
    part != "" && part != "." && part != ".." && part != "cache"
  }

  /** _relative on a string: its parts, or a refusal. */
  function Relative(value: string): Option<Path> {
    var parts := Split(value);
    if 1 <= |value| <= MAX_NAME && '\\' !in value && '\0' !in value && value[0] != '/'
       && (forall part <- parts :: SafePart(part)) && parts[0] in SCOPES && |parts| <= MAX_DEPTH
    then Some(parts)
    else None
  }

  /** A path inside one of the three scopes whose parts mean only themselves. */
  predicate SafePath(parts: Path) {
    && 1 <= |parts| <= MAX_DEPTH && parts[0] in SCOPES
    && forall part <- parts :: SafePart(part) && '/' !in part && '\\' !in part && '\0' !in part
  }

  lemma {:induction false} JoinHas(parts: seq<string>, c: char)
    requires c != '/'
    ensures c in Join(parts) <==> exists part <- parts :: c in part
    decreases |parts|
  {
    if parts != [] {
      JoinHas(parts[1..], c);
      assert parts == [parts[0]] + parts[1..];
    }
  }

  /** The accepted strings are exactly the short enough spellings of safe paths, each of one path. */
  lemma RelativeIff(value: string, parts: Path)
    ensures Relative(value) == Some(parts) <==> SafePath(parts) && value == Join(parts) && |value| <= MAX_NAME
  {
    JoinSplit(value);
    var split := Split(value);
    JoinHas(split, '\\');
    JoinHas(split, '\0');
    if Relative(value) == Some(parts) {
      NoneIn(split, '\\');
      NoneIn(split, '\0');
    }
    if SafePath(parts) && value == Join(parts) && |value| <= MAX_NAME {
      SplitJoin(parts);
      assert parts[0] in parts;
      FirstOfJoin(parts);
    }
  }

  lemma NoneIn(parts: seq<string>, c: char)
    requires !exists part <- parts :: c in part
    ensures forall part <- parts :: c !in part
  {
  }

  lemma FirstOfJoin(parts: Path)
    requires parts != [] && parts[0] != ""
    ensures Join(parts) != "" && Join(parts)[0] == parts[0][0]
  {
  }

  /** str(PurePosixPath(name).parent). */
  function Parent(name: string): string {
    var parts := Split(name);
    if |parts| == 1 then "." else Join(parts[..|parts| - 1])
  }

  /** The parent's spelling names the path without its last part. */
  lemma ParentPath(name: string)
    requires Relative(name).Some? && |Relative(name).value| > 1
    ensures var parts := Relative(name).value; Relative(Parent(name)) == Some(parts[..|parts| - 1])
  {
    var parts := Relative(name).value;
    var init := parts[..|parts| - 1];
    RelativeIff(name, parts);
    assert forall part <- init :: part in parts;
    JoinLonger(parts);
    RelativeIff(Parent(name), init);
  }

  lemma {:induction false} JoinLonger(parts: Path)
    requires |parts| > 1
    ensures |Join(parts[..|parts| - 1])| <= |Join(parts)|
    decreases |parts|
  {
    var init := parts[..|parts| - 1];
    if |parts| > 2 {
      JoinLonger(parts[1..]);
      assert parts[1..][..|parts| - 2] == init[1..];
    }
  }

  // ---------- _validate ----------

  /** A file entry: its name, its decoded data if the text decodes, and the digest it claims. */
  datatype Entry = Entry(path: string, data: Option<seq<Octet>>, sha256: Digest)

  function Total(files: seq<Entry>): nat {
    if files == [] then 0
    else
      var last := files[|files| - 1];
      Total(files[..|files| - 1]) + if last.data.Some? then |last.data.value| else 0
  }

  predicate Distinct(names: seq<string>) {
    forall i, j :: 0 <= i < j < |names| ==> names[i] != names[j]
  }

  predicate GoodFile(e: Entry, directories: set<string>) {
    && Relative(e.path).Some? && |Relative(e.path).value| > 1 && e.path !in directories
    && Parent(e.path) in directories && e.data.Some? && e.sha256 == Sha256(e.data.value)
  }

  /** A scope, or a name whose parent is listed. */
  predicate HasParent(name: string, directories: set<string>) {
    Parent(name) == "." || Parent(name) in directories
  }

  /** Every directory lies directly in a listed one, up to the three scopes. */
  predicate ClosedUp(directories: set<string>) {
    && (forall scope <- SCOPES :: scope in directories)
    && forall name <- directories :: HasParent(name, directories)
  }

  /** What a snapshot must satisfy to be installed. */
  predicate Admissible(directories: seq<string>, files: seq<Entry>) {
    && |directories| + |files| <= MAX_ENTRIES
    && (forall name <- directories :: Relative(name).Some?) && Distinct(directories)
    && ClosedUp(set name <- directories)
    && (forall e <- files :: GoodFile(e, set name <- directories))
    && DistinctPaths(files) && Total(files) <= MAX_BYTES
  }

  lemma {:induction false} TotalGrows(files: seq<Entry>, k: nat)
    requires k <= |files|
    ensures Total(files[..k]) <= Total(files)
    decreases |files|
  {
    if k < |files| {
      TotalGrows(files[..|files| - 1], k);
      assert files[..|files| - 1][..k] == files[..k];
    } else {
      assert files[..k] == files;
    }
  }

  method CollectDirectories(names: seq<string>) returns (directories: Option<set<string>>)
    ensures directories.Some? <==>
            (forall name <- names :: Relative(name).Some?) && Distinct(names) && ClosedUp(set name <- names)
    ensures directories.Some? ==> directories.value == set name <- names
  {
    hide Relative, Parent;
    var seen: set<string> := {};
    for i := 0 to |names|
      invariant forall j :: 0 <= j < i ==> Relative(names[j]).Some?
      invariant forall j, k :: 0 <= j < k < i ==> names[j] != names[k]
      invariant forall name :: name in seen <==> exists j :: 0 <= j < i && names[j] == name
    {
      assert names[i] in names;
      if Relative(names[i]).None? || names[i] in seen { return None; }
      seen := seen + {names[i]};
    }
    assert seen == set name <- names;
    if !(forall scope <- SCOPES :: scope in seen) { return None; }
    if !(forall name <- seen :: HasParent(name, seen)) { return None; }
    return Some(seen);
  }

  predicate DistinctPaths(entries: seq<Entry>) {
    forall i, j :: 0 <= i < j < |entries| ==> entries[i].path != entries[j].path
  }

  /** `stored` holds exactly these entries, all of them good and under different names. */
  predicate Kept(entries: seq<Entry>, directories: set<string>, stored: map<string, seq<Octet>>) {
    && (forall e <- entries :: GoodFile(e, directories)) && DistinctPaths(entries)
    && (forall name <- stored :: exists e <- entries :: e.path == name)
    && (forall e <- entries :: e.path in stored && e.data == Some(stored[e.path]))
  }

  lemma KeptMore(entries: seq<Entry>, directories: set<string>, stored: map<string, seq<Octet>>, e: Entry)
    requires Kept(entries, directories, stored) && e.path !in stored && GoodFile(e, directories) && e.data.Some?
    ensures Kept(entries + [e], directories, stored[e.path := e.data.value])
  {
    hide GoodFile;
    var more, now := entries + [e], stored[e.path := e.data.value];
    forall name | name in now ensures exists f <- more :: f.path == name {
      if name == e.path { assert e in more; } else {
        var f :| f in entries && f.path == name;
        assert f in more;
      }
    }
  }

  lemma KeptClash(entries: seq<Entry>, directories: set<string>, stored: map<string, seq<Octet>>, k: nat)
    requires k < |entries| && Kept(entries[..k], directories, stored) && entries[k].path in stored
    ensures !DistinctPaths(entries)
  {
    var f :| f in entries[..k] && f.path == entries[k].path;
    var j :| 0 <= j < k && entries[..k][j] == f;
    assert entries[j].path == entries[k].path;
  }

  lemma KeptAll(entries: seq<Entry>, directories: set<string>, stored: map<string, seq<Octet>>)
    requires Kept(entries, directories, stored)
    ensures (forall e <- entries :: GoodFile(e, directories)) && DistinctPaths(entries)
    ensures stored.Keys == (set e <- entries :: e.path)
    ensures forall e <- entries :: e.data.Some? && stored[e.path] == e.data.value
  {
    hide GoodFile;
  }

  lemma TotalNext(entries: seq<Entry>, k: nat)
    requires k < |entries| && entries[k].data.Some?
    ensures Total(entries[..k + 1]) == Total(entries[..k]) + |entries[k].data.value| <= Total(entries)
  {
    assert entries[..k + 1][..k] == entries[..k];
    TotalGrows(entries, k + 1);
  }

  method CollectFiles(entries: seq<Entry>, directories: set<string>) returns (files: Option<map<string, seq<Octet>>>)
    ensures files.Some? <==>
            (forall e <- entries :: GoodFile(e, directories)) && Total(entries) <= MAX_BYTES && DistinctPaths(entries)
    ensures files.Some? ==>
              && files.value.Keys == (set e <- entries :: e.path)
              && forall e <- entries :: e.data.Some? && files.value[e.path] == e.data.value
  {
    hide Relative, Parent, Total, DistinctPaths, Kept;
    var stored: map<string, seq<Octet>> := map[];
    var total := 0;
    KeptNone(directories);
    for i := 0 to |entries|
      invariant Kept(entries[..i], directories, stored)
      invariant total == Total(entries[..i]) <= MAX_BYTES
    {
      var e := entries[i];
      assert e in entries;
      if e.path in stored { KeptClash(entries, directories, stored, i); }
      if !(Relative(e.path).Some? && |Relative(e.path).value| > 1 && e.path !in stored
           && e.path !in directories && Parent(e.path) in directories) { return None; }
      if e.data.Some? { TotalNext(entries, i); }
      if e.data.None? || |e.data.value| > MAX_BYTES - total || Sha256(e.data.value) != e.sha256 { return None; }
      KeptMore(entries[..i], directories, stored, e);
      assert entries[..i] + [e] == entries[..i + 1];
      total := total + |e.data.value|;
      stored := stored[e.path := e.data.value];
    }
    assert entries[..|entries|] == entries;
    KeptAll(entries, directories, stored);
    return Some(stored);
  }

  lemma KeptNone(directories: set<string>)
    ensures Kept([], directories, map[]) && Total([]) == 0
  {
  }

  /** The directory and file half of _validate. */
  method Validate(names: seq<string>, entries: seq<Entry>)
    returns (tree: Option<(set<string>, map<string, seq<Octet>>)>)
    ensures tree.Some? <==> Admissible(names, entries)
    ensures tree.Some? ==>
              && tree.value.0 == (set name <- names) && tree.value.1.Keys == (set e <- entries :: e.path)
              && forall e <- entries :: e.data.Some? && tree.value.1[e.path] == e.data.value
  {
    hide ClosedUp, GoodFile, Total, Distinct, DistinctPaths;
    if |names| + |entries| > MAX_ENTRIES { return None; }
    var directories := CollectDirectories(names);
    if directories.None? { return None; }
    var files := CollectFiles(entries, directories.value);
    if files.None? { return None; }
    return Some((directories.value, files.value));
  }

  // ---------- what is admitted, spelled out ----------

  /** The parts of an accepted name: one to twelve, the first a scope, each meaning only itself. */
  predicate Spells(value: string, parts: Path) {
    && 1 <= |parts| <= 12 && value == Join(parts) && |value| <= 512
    && (parts[0] == "config" || parts[0] == "data" || parts[0] == "state")
    && forall part <- parts :: part != "" && part != "." && part != ".." && part != "cache"
                               && '/' !in part && '\\' !in part && '\0' !in part
  }

  lemma RelativePlainly(value: string, parts: Path)
    ensures Relative(value) == Some(parts) <==> Spells(value, parts)
  {
    RelativeIff(value, parts);
    assert forall scope: string :: scope in SCOPES <==> scope == "config" || scope == "data" || scope == "state";
    hide Relative, Join;
  }

  predicate PlainName(value: string) {
    Spells(value, Split(value))
  }

  /** A scope, or listed together with the directory it is in. */
  predicate Within(name: string, directories: seq<string>) {
    var parts := Split(name);
    |parts| > 1 ==> Join(parts[..|parts| - 1]) in directories
  }

  /** A file stands in a listed directory, under a name of its own, with its data and their digest. */
  predicate PlainFile(e: Entry, directories: seq<string>) {
    && PlainName(e.path) && |Split(e.path)| > 1 && Within(e.path, directories) && e.path !in directories
    && e.data.Some? && e.sha256 == Sha256(e.data.value)
  }

  /**
   * At most 2048 entries; the directories accepted names, distinct, the three scopes among them,
   * each but these directly in another one; the files sound and distinct, with at most sixteen
   * mebibytes in all.
   */
  predicate PlainSnapshot(directories: seq<string>, files: seq<Entry>) {
    && |directories| + |files| <= 2048
    && (forall name <- directories :: PlainName(name))
    && (forall i, j :: 0 <= i < j < |directories| ==> directories[i] != directories[j])
    && "config" in directories && "data" in directories && "state" in directories
    && (forall name <- directories :: Within(name, directories))
    && (forall e <- files :: PlainFile(e, directories))
    && (forall i, j :: 0 <= i < j < |files| ==> files[i].path != files[j].path)
    && Total(files) <= 16777216
  }

  lemma AdmissibleIff(directories: seq<string>, files: seq<Entry>)
    ensures Admissible(directories, files) <==> PlainSnapshot(directories, files)
  {
    hide Relative, PlainName, Within, HasParent, Total, GoodFile, PlainFile;
    var all := set name <- directories;
    forall name | name in directories
      ensures Relative(name).Some? <==> PlainName(name)
      ensures Relative(name).Some? ==> (HasParent(name, all) <==> Within(name, directories))
    {
      NamePlainly(name, directories);
    }
    forall e | e in files ensures GoodFile(e, all) <==> PlainFile(e, directories) {
      FilePlainly(e, directories);
    }
    ScopesIn(all);
  }

  /** The total adds up what the files hold, one by one. */
  lemma {:induction false} TotalAdds(a: seq<Entry>, b: seq<Entry>)
    ensures Total(a + b) == Total(a) + Total(b)
    ensures forall e: Entry :: Total([e]) == if e.data.Some? then |e.data.value| else 0
    decreases |b|
  {
    forall e: Entry ensures Total([e]) == if e.data.Some? then |e.data.value| else 0 {
      assert [e][..0] == [];
    }
    if b == [] {
      assert a + b == a;
    } else {
      var n := |b| - 1;
      TotalAdds(a, b[..n]);
      assert (a + b)[..|a| + n] == a + b[..n];
    }
  }

  lemma SpelledIff(value: string)
    ensures Relative(value).Some? <==> PlainName(value)
    ensures Relative(value).Some? ==> Relative(value).value == Split(value)
  {
    RelativePlainly(value, Split(value));
    if Relative(value).Some? { RelativePlainly(value, Relative(value).value); }
  }

  lemma NamePlainly(name: string, directories: seq<string>)
    ensures Relative(name).Some? <==> PlainName(name)
    ensures Relative(name).Some? ==> (HasParent(name, set n <- directories) <==> Within(name, directories))
  {
    SpelledIff(name);
    if Relative(name).Some? { NotDot(name); }
    hide Relative, PlainName, Join, Split;
  }

  lemma FilePlainly(e: Entry, directories: seq<string>)
    ensures GoodFile(e, set name <- directories) <==> PlainFile(e, directories)
  {
    SpelledIff(e.path);
    hide Relative, PlainName, Join, Split;
  }

  lemma ScopesIn(names: set<string>)
    ensures (forall scope <- SCOPES :: scope in names) <==> "config" in names && "data" in names && "state" in names
  {
    assert SCOPES[0] in SCOPES && SCOPES[1] in SCOPES && SCOPES[2] in SCOPES;
  }

  /** The parent of an accepted name is never taken for the top. */
  lemma NotDot(name: string)
    requires Relative(name).Some?
    ensures Parent(name) == "." <==> |Split(name)| == 1
  {
    var parts := Split(name);
    if |parts| > 1 {
      ParentPath(name);
      SplitOne(".");
      assert "." in Split(".");
      assert Relative(".") == None;
    }
  }
}
