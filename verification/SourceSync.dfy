/**
 * Syncing the versioned rule sources of a release into the store, in one transaction. A rule and
 * its resource are one to one, so both are named by the rule's number; a raw source carries its
 * own rule and version, and its digest determines the whole of it.
 */
module SourceSync {
  import opened Wrappers

  /** A source file: the rule and version in its header, and the rest. */
  datatype Text = Text(rule: nat, version: nat, body: nat)

  datatype Digest = Sha256(raw: Text)

  datatype RevisionId = RevisionId(rule: nat, digest: Digest, version: nat)

  datatype Revision = Revision(id: RevisionId, parent: Option<RevisionId>)

  datatype Kind = Release | Retired

  datatype Row = Row(path: string, rule: nat, kind: Kind, version: nat, digest: Digest, revision: RevisionId)

  /** `form` stands for type, parent, name, owner, group and mode. */
  datatype Resource = Resource(form: nat, archived: bool, generation: nat, revision: Option<RevisionId>)

  datatype Store = Store(rows: map<nat, Row>, resources: map<nat, Resource>, past: map<nat, seq<Revision>>)

  datatype Source = Source(rule: nat, path: string, raw: Text)

  datatype Pin = Pin(path: string, version: nat, digest: Digest)

  datatype Bundle = Bundle(sources: seq<Source>, retirements: map<nat, Pin>, migrations: map<nat, (string, string)>)

  function Past(s: Store, rule: nat): seq<Revision> {
    if rule in s.past then s.past[rule] else []
  }

  /** The form that the release prescribes for a rule's resource. */
  function Form(rule: nat): nat { rule }

  /** seed_resource without a body: the resource that is there, or a new one. */
  function Seeded(s: Store, rule: nat): Resource {
    if rule in s.resources then s.resources[rule] else Resource(Form(rule), false, 0, None)
  }

  function RulesOf(xs: seq<Source>): set<nat> {
    set x <- xs :: x.rule
  }

  /** The inventory of a release: every known rule once, from its own text, or retired. */
  predicate Loads(rules: set<nat>, b: Bundle) {
    && (forall x <- b.sources :: x.raw.rule == x.rule)
    && (forall i, j :: 0 <= i < j < |b.sources| ==> b.sources[i].rule != b.sources[j].rule && b.sources[i].path != b.sources[j].path)
    && RulesOf(b.sources) == rules - b.retirements.Keys && b.retirements.Keys <= rules
    && (forall rule <- b.migrations :: rule in rules && rule !in b.retirements)
    && forall x <- b.sources :: x.rule in b.migrations ==> b.migrations[x.rule].1 == x.path
  }

  // ---------- one source ----------

  predicate Unchanged(row: Row, x: Source) {
    row.digest == Sha256(x.raw)
  }

  /** Everything that is required of an existing row before the source may replace or confirm it. */
  predicate MayFollow(row: Row, resource: Resource, x: Source, migrations: map<nat, (string, string)>) {
    && row.kind == Release && row.rule == x.rule
    && (row.path != x.path ==> x.rule in migrations && migrations[x.rule] == (row.path, x.path))
    && resource.revision == Some(row.revision)
    && (if Unchanged(row, x) then row.version == x.raw.version else x.raw.version > row.version)
  }

  predicate Acceptable(s: Store, x: Source, migrations: map<nat, (string, string)>) {
    && Seeded(s, x.rule).form == Form(x.rule)
    && (x.rule in s.rows ==> MayFollow(s.rows[x.rule], Seeded(s, x.rule), x, migrations))
  }

  /** A new revision on top of what the resource points to, and the row that describes it. */
  function Published(s: Store, x: Source): Store {
    var resource := Seeded(s, x.rule);
    var id := RevisionId(x.rule, Sha256(x.raw), x.raw.version);
    Store(
      s.rows[x.rule := Row(x.path, x.rule, Release, x.raw.version, Sha256(x.raw), id)],
      s.resources[x.rule := resource.(generation := resource.generation + 1, revision := Some(id))],
      s.past[x.rule := Past(s, x.rule) + [Revision(id, resource.revision)]])
  }

  /** The store with the source in it: a row may only have to move, or a new revision is made. */
  function Placed(s: Store, x: Source): Store {
    if x.rule in s.rows && Unchanged(s.rows[x.rule], x) then s.(rows := s.rows[x.rule := s.rows[x.rule].(path := x.path)])
    else Published(s, x)
  }

  /** Paths are unique in the table: no row of another rule may hold the path that is written. */
  predicate Vacant(s: Store, x: Source) {
    forall r <- s.rows :: r != x.rule ==> s.rows[r].path != x.path
  }

  /** The row is there as the source has it, so nothing is written. */
  predicate Settled(s: Store, x: Source) {
    x.rule in s.rows && Unchanged(s.rows[x.rule], x) && s.rows[x.rule].path == x.path
  }

  function SyncOne(s: Store, x: Source, migrations: map<nat, (string, string)>): Option<Store> {
    if Acceptable(s, x, migrations) && (Settled(s, x) || Vacant(s, x)) then Some(Placed(s, x)) else None
  }

  function SyncAll(s: Store, xs: seq<Source>, migrations: map<nat, (string, string)>): Option<Store>
    decreases |xs|
  {
    if xs == [] then Some(s)
    else
      var prior := SyncAll(s, xs[..|xs| - 1], migrations);
      if prior.None? then None else SyncOne(prior.value, xs[|xs| - 1], migrations)
  }

  // ---------- retirements ----------

  predicate Pinned(row: Row, resource: Resource, rule: nat, pin: Pin) {
    && row.path == pin.path && row.version == pin.version && row.digest == pin.digest && row.rule == rule
    && resource.form == Form(rule) && resource.revision == Some(row.revision)
    && (row.kind == Retired ==> resource.archived)
  }

  predicate MayRetire(s: Store, rule: nat, pin: Pin) {
    if rule in s.rows then rule in s.resources && Pinned(s.rows[rule], s.resources[rule], rule, pin)
    else rule !in s.resources
  }

  function Archived(resource: Resource): Resource {
    if resource.archived then resource else resource.(archived := true, generation := resource.generation + 1)
  }

  /** Every retired rule that has a row is archived and marked. */
  function Retire(s: Store, rules: set<nat>): Store {
    Store(
      map rule | rule in s.rows :: if rule in rules then s.rows[rule].(kind := Retired) else s.rows[rule],
      map rule | rule in s.resources :: if rule in rules && rule in s.rows then Archived(s.resources[rule]) else s.resources[rule],
      s.past)
  }

  /** No row is left whose path this release neither ships nor retires. */
  predicate NothingMissing(s: Store, b: Bundle) {
    forall rule <- s.rows ::
      (exists x <- b.sources :: x.path == s.rows[rule].path)
      || (exists r <- b.retirements :: r in s.rows && s.rows[r].path == s.rows[rule].path)
  }

  /** The transaction: all of it, or nothing. */
  function Sync(rules: set<nat>, s: Store, b: Bundle): Option<Store> {
    if !Loads(rules, b) || !(forall rule <- b.retirements :: MayRetire(s, rule, b.retirements[rule])) then None
    else
      var synced := SyncAll(s, b.sources, b.migrations);
      if synced.None? then None
      else
        var done := Retire(synced.value, b.retirements.Keys);
        if NothingMissing(done, b) then Some(done) else None
  }

  // ---------- what every sync keeps ----------

  /** One rule's revisions: its own texts, each on top of the one before, versions rising. */
  predicate GoodPast(rule: nat, past: seq<Revision>) {
    && (forall i :: 0 <= i < |past| ==> LinkedAt(rule, past, i))
    && forall i, j :: 0 <= i < j < |past| ==> past[i].id.version < past[j].id.version
  }

  /** A rule's row, resource and last revision agree. */
  predicate Agree(s: Store, rule: nat) {
    var past := Past(s, rule);
    && GoodPast(rule, past) && (rule in s.rows <==> rule in s.resources) && (rule in s.rows <==> past != [])
    && (rule in s.rows ==>
          var row, resource := s.rows[rule], s.resources[rule];
          && row.rule == rule && row.revision == past[|past| - 1].id && resource.revision == Some(row.revision)
          && row.version == row.revision.version && row.digest == row.revision.digest
          && resource.form == Form(rule) && resource.archived == (row.kind == Retired)
          && resource.generation == |past| + if resource.archived then 1 else 0)
  }

  /** No two rows hold the same path. */
  predicate Apart(s: Store) {
    forall p, q :: p in s.rows && q in s.rows && p != q ==> s.rows[p].path != s.rows[q].path
  }

  ghost predicate Coherent(s: Store) {
    Apart(s) && forall rule: nat :: Agree(s, rule)
  }

  predicate GoodLink(rule: nat, r: Revision, parent: Option<RevisionId>) {
    r.id.rule == rule && r.id.digest.raw.rule == rule && r.id.digest.raw.version == r.id.version && r.parent == parent
  }

  function LastId(past: seq<Revision>): Option<RevisionId> {
    if past == [] then None else Some(past[|past| - 1].id)
  }

  /** A revision of this rule's own text, on top of all before it. */
  predicate LinkedAt(rule: nat, past: seq<Revision>, i: nat)
    requires i < |past|
  {
    GoodLink(rule, past[i], LastId(past[..i]))
  }

  lemma GoodPastMore(rule: nat, past: seq<Revision>, r: Revision)
    requires GoodPast(rule, past) && GoodLink(rule, r, LastId(past))
    requires past != [] ==> past[|past| - 1].id.version < r.id.version
    ensures GoodPast(rule, past + [r])
  {
    var more := past + [r];
    forall i | 0 <= i < |more| ensures LinkedAt(rule, more, i) {
      assert more[..i] == past[..i];
      assert i < |past| ==> LinkedAt(rule, past, i);
      assert past[..|past|] == past;
    }
  }

  /** What one accepted source does: it touches its own rule only, and keeps that rule coherent. */
  lemma SyncOneKeeps(s: Store, x: Source, migrations: map<nat, (string, string)>, rule: nat)
    requires Agree(s, rule) && x.raw.rule == x.rule && SyncOne(s, x, migrations).Some?
    ensures Agree(SyncOne(s, x, migrations).value, rule)
  {
    if rule == x.rule {
      if !(rule in s.rows && Unchanged(s.rows[rule], x)) {
        PublishedAgrees(s, x);
      }
    } else {
      SyncOneLocal(s, x, migrations, rule);
    }
  }

  lemma PublishedAgrees(s: Store, x: Source)
    requires Agree(s, x.rule) && x.raw.rule == x.rule && Seeded(s, x.rule).form == Form(x.rule)
    requires x.rule in s.rows ==> s.rows[x.rule].kind == Release && x.raw.version > s.rows[x.rule].version
    ensures Agree(Published(s, x), x.rule)
  {
    var past := Past(s, x.rule);
    var r := Revision(RevisionId(x.rule, Sha256(x.raw), x.raw.version), Seeded(s, x.rule).revision);
    assert r.parent == LastId(past);
    GoodPastMore(x.rule, past, r);
    hide GoodPast;
    assert Past(Published(s, x), x.rule) == past + [r];
  }

  predicate SameRule(s: Store, t: Store, rule: nat) {
    && (rule in s.rows <==> rule in t.rows) && (rule in s.rows ==> s.rows[rule] == t.rows[rule])
    && (rule in s.resources <==> rule in t.resources) && (rule in s.resources ==> s.resources[rule] == t.resources[rule])
    && Past(s, rule) == Past(t, rule)
  }

  lemma SyncOneLocal(s: Store, x: Source, migrations: map<nat, (string, string)>, rule: nat)
    requires SyncOne(s, x, migrations).Some? && rule != x.rule
    ensures SameRule(s, SyncOne(s, x, migrations).value, rule)
  {
  }

  lemma {:induction false} SyncAllKeeps(s: Store, xs: seq<Source>, migrations: map<nat, (string, string)>, rule: nat)
    requires Agree(s, rule) && (forall x <- xs :: x.raw.rule == x.rule) && SyncAll(s, xs, migrations).Some?
    ensures Agree(SyncAll(s, xs, migrations).value, rule)
    decreases |xs|
  {
    hide Agree, SyncOne;
    if xs != [] {
      var init, last := xs[..|xs| - 1], xs[|xs| - 1];
      assert last in xs && forall x <- init :: x in xs;
      SyncAllKeeps(s, init, migrations, rule);
      SyncOneKeeps(SyncAll(s, init, migrations).value, last, migrations, rule);
    }
  }

  lemma RetireKeeps(s: Store, rules: set<nat>, rule: nat)
    requires Agree(s, rule)
    ensures Agree(Retire(s, rules), rule)
  {
    hide GoodPast;
    assert Past(Retire(s, rules), rule) == Past(s, rule);
  }

  lemma SyncOneApart(s: Store, x: Source, migrations: map<nat, (string, string)>)
    requires Apart(s) && SyncOne(s, x, migrations).Some?
    ensures Apart(SyncOne(s, x, migrations).value)
  {
    hide Acceptable;
  }

  lemma {:induction false} SyncAllApart(s: Store, xs: seq<Source>, migrations: map<nat, (string, string)>)
    requires Apart(s) && SyncAll(s, xs, migrations).Some?
    ensures Apart(SyncAll(s, xs, migrations).value)
    decreases |xs|
  {
    hide Apart, SyncOne;
    if xs != [] {
      var init, last := xs[..|xs| - 1], xs[|xs| - 1];
      SyncAllApart(s, init, migrations);
      SyncOneApart(SyncAll(s, init, migrations).value, last, migrations);
    }
  }

  lemma RetireApart(s: Store, rules: set<nat>)
    requires Apart(s)
    ensures Apart(Retire(s, rules))
  {
  }

  /** Every accepted release keeps the store coherent. */
  lemma SyncKeeps(rules: set<nat>, s: Store, b: Bundle)
    requires Coherent(s) && Sync(rules, s, b).Some?
    ensures Coherent(Sync(rules, s, b).value)
  {
    hide Agree, Apart, SyncAll, Retire, MayRetire, NothingMissing;
    SyncAllApart(s, b.sources, b.migrations);
    RetireApart(SyncAll(s, b.sources, b.migrations).value, b.retirements.Keys);
    forall rule: nat ensures Agree(Sync(rules, s, b).value, rule) {
      SyncAllKeeps(s, b.sources, b.migrations, rule);
      RetireKeeps(SyncAll(s, b.sources, b.migrations).value, b.retirements.Keys, rule);
    }
  }

  // ---------- what each source meets ----------

  /** Neither a rule nor a path comes twice. */
  predicate OneEach(xs: seq<Source>) {
    forall i, j :: 0 <= i < j < |xs| ==> xs[i].rule != xs[j].rule && xs[i].path != xs[j].path
  }

  predicate NotAmong(rule: nat, xs: seq<Source>) {
    forall x <- xs :: x.rule != rule
  }

  lemma {:induction false} SyncAllLocal(s: Store, xs: seq<Source>, migrations: map<nat, (string, string)>, rule: nat)
    requires SyncAll(s, xs, migrations).Some? && NotAmong(rule, xs)
    ensures SameRule(s, SyncAll(s, xs, migrations).value, rule)
    decreases |xs|
  {
    hide SyncOne;
    if xs != [] {
      var init, last := xs[..|xs| - 1], xs[|xs| - 1];
      assert last in xs && forall x <- init :: x in xs;
      SyncAllLocal(s, init, migrations, rule);
      SyncOneLocal(SyncAll(s, init, migrations).value, last, migrations, rule);
    }
  }

  lemma SameAcceptable(s: Store, t: Store, x: Source, migrations: map<nat, (string, string)>)
    requires SameRule(s, t, x.rule)
    ensures Acceptable(s, x, migrations) <==> Acceptable(t, x, migrations)
    ensures SameRule(Placed(s, x), Placed(t, x), x.rule)
  {
    SamePlaced(s, t, x);
    hide Placed;
  }

  lemma SamePlaced(s: Store, t: Store, x: Source)
    requires SameRule(s, t, x.rule)
    ensures SameRule(Placed(s, x), Placed(t, x), x.rule)
  {
  }

  /** Where a source went: the rule ends up as if it had been placed in the store before the sync. */
  lemma {:induction false} SyncAllAt(s: Store, xs: seq<Source>, migrations: map<nat, (string, string)>, k: nat)
    requires OneEach(xs) && k < |xs| && SyncAll(s, xs, migrations).Some?
    ensures Acceptable(s, xs[k], migrations)
    ensures SameRule(Placed(s, xs[k]), SyncAll(s, xs, migrations).value, xs[k].rule)
    decreases |xs|
  {
    hide Acceptable, Placed, Vacant, Settled, SameRule;
    var init, last := xs[..|xs| - 1], xs[|xs| - 1];
    var prior := SyncAll(s, init, migrations).value;
    if k < |init| {
      SyncAllAt(s, init, migrations, k);
      assert init[k] == xs[k];
      SyncOneLocal(prior, last, migrations, xs[k].rule);
      SameTransitive(Placed(s, xs[k]), prior, SyncAll(s, xs, migrations).value, xs[k].rule);
    } else {
      SyncAllLocal(s, init, migrations, last.rule);
      SameAcceptable(s, prior, last, migrations);
    }
  }

  /** Whoever holds the path of the k-th source before the sync is moved by a source before it. */
  predicate Cleared(s: Store, xs: seq<Source>, k: nat)
    requires k < |xs|
  {
    forall r <- s.rows :: r != xs[k].rule && s.rows[r].path == xs[k].path ==> r in RulesOf(xs[..k])
  }

  /** What can be required of the k-th source before the sync. */
  predicate Admitted(s: Store, xs: seq<Source>, migrations: map<nat, (string, string)>, k: nat)
    requires k < |xs|
  {
    Acceptable(s, xs[k], migrations) && Cleared(s, xs, k)
  }

  lemma PlacedPath(s: Store, x: Source)
    ensures x.rule in Placed(s, x).rows && Placed(s, x).rows[x.rule].path == x.path
  {
  }

  /** At its turn the path is free exactly if every earlier holder has moved away. */
  lemma VacantIff(s: Store, xs: seq<Source>, migrations: map<nat, (string, string)>, k: nat)
    requires OneEach(xs) && k < |xs| && SyncAll(s, xs[..k], migrations).Some?
    ensures Vacant(SyncAll(s, xs[..k], migrations).value, xs[k]) <==> Cleared(s, xs, k)
  {
    hide SyncAll, Placed;
    var prior := SyncAll(s, xs[..k], migrations).value;
    forall r | r != xs[k].rule
      ensures r in RulesOf(xs[..k]) ==> r in prior.rows && prior.rows[r].path != xs[k].path
      ensures r !in RulesOf(xs[..k]) ==> SameRule(s, prior, r)
    {
      if r in RulesOf(xs[..k]) {
        var j :| 0 <= j < k && xs[..k][j].rule == r;
        SyncAllAt(s, xs[..k], migrations, j);
        PlacedPath(s, xs[j]);
        assert xs[j].path != xs[k].path;
      } else {
        SyncAllLocal(s, xs[..k], migrations, r);
      }
    }
  }

  /**
   * The sources are accepted exactly when each is acceptable to the store before the sync and its
   * path is free at its turn. The order matters for the second condition, and for nothing else.
   */
  lemma {:induction false} SyncAllIff(s: Store, xs: seq<Source>, migrations: map<nat, (string, string)>)
    requires Apart(s) && OneEach(xs)
    ensures SyncAll(s, xs, migrations).Some? <==> forall k :: 0 <= k < |xs| ==> Admitted(s, xs, migrations, k)
    decreases |xs|
  {
    hide Acceptable, Placed, Vacant, Settled, SameRule, Cleared, Apart;
    if xs != [] {
      var n, init, last := |xs| - 1, xs[..|xs| - 1], xs[|xs| - 1];
      SyncAllIff(s, init, migrations);
      forall k | 0 <= k < n ensures Admitted(s, init, migrations, k) <==> Admitted(s, xs, migrations, k) {
        ClearedInit(s, xs, k);
      }
      if SyncAll(s, init, migrations).Some? {
        var prior := SyncAll(s, init, migrations).value;
        SyncAllLocal(s, init, migrations, last.rule);
        SameAcceptable(s, prior, last, migrations);
        SyncAllApart(s, init, migrations);
        SettledVacant(prior, last);
        VacantIff(s, xs, migrations, n);
        assert Admitted(s, xs, migrations, n) <==> SyncAll(s, xs, migrations).Some?;
      }
    }
  }

  lemma ClearedInit(s: Store, xs: seq<Source>, k: nat)
    requires k < |xs| - 1
    ensures Cleared(s, xs[..|xs| - 1], k) <==> Cleared(s, xs, k)
  {
    assert xs[..|xs| - 1][..k] == xs[..k];
  }

  lemma SettledVacant(s: Store, x: Source)
    requires Apart(s)
    ensures Settled(s, x) ==> Vacant(s, x)
  {
  }

  lemma SameTransitive(s: Store, t: Store, u: Store, rule: nat)
    requires SameRule(s, t, rule) && SameRule(t, u, rule)
    ensures SameRule(s, u, rule)
  {
  }

  function Empty(): Store { Store(map[], map[], map[]) }
}
