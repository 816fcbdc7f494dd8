/** The release transaction as it runs, on the tables in place. */
module SourceDatabase {
  import opened Wrappers
  import opened SourceSync
  import opened SourceRelease

  class Database {
    var rows: map<nat, Row>
    var resources: map<nat, Resource>
    var past: map<nat, seq<Revision>>

    function View(): Store
      reads this
    {
      Store(rows, resources, past)
    }

    constructor ()
      ensures View() == Empty()
    {
      rows, resources, past := map[], map[], map[];
    }

    /** One source of the release. The table refuses a path that another row holds, when it is written. */
    method Apply(x: Source, migrations: map<nat, (string, string)>) returns (ok: bool)
      modifies this
      ensures ok <==> SyncOne(old(View()), x, migrations).Some?
      ensures ok ==> SyncOne(old(View()), x, migrations) == Some(View())
    {
      var resource := if x.rule in resources then resources[x.rule] else Resource(Form(x.rule), false, 0, None);
      if resource.form != Form(x.rule) { return false; }
      var digest := Sha256(x.raw);
      if x.rule in rows {
        var row := rows[x.rule];
        if row.kind == Retired || row.rule != x.rule { return false; }
        if row.path != x.path && (x.rule !in migrations || migrations[x.rule] != (row.path, x.path)) { return false; }
        if resource.revision != Some(row.revision) { return false; }
        if row.digest == digest {
          if row.version != x.raw.version { return false; }
          if row.path != x.path {
            if exists r <- rows :: r != x.rule && rows[r].path == x.path { return false; }
            rows := rows[x.rule := row.(path := x.path)];
          }
          assert rows == old(rows)[x.rule := row.(path := x.path)];
          return true;
        }
        if x.raw.version <= row.version { return false; }
      }
      var id := RevisionId(x.rule, digest, x.raw.version);
      past := past[x.rule := (if x.rule in past then past[x.rule] else []) + [Revision(id, resource.revision)]];
      resources := resources[x.rule := resource.(generation := resource.generation + 1, revision := Some(id))];
      if exists r <- rows :: r != x.rule && rows[r].path == x.path { return false; }
      rows := rows[x.rule := Row(x.path, x.rule, Release, x.raw.version, digest, id)];
      return true;
    }

    /** A whole release. A refusal at any point rolls everything back. */
    method SyncRelease(rules: set<nat>, b: Bundle) returns (accepted: bool)
      modifies this
      ensures accepted <==> Sync(rules, old(View()), b).Some?
      ensures View() == if accepted then Sync(rules, old(View()), b).value else old(View())
      ensures old(Coherent(View())) ==> Coherent(View())
      ensures old(Apart(View())) ==>
                (accepted <==>
                   && Inventory(rules, b) && PinsHold(old(View()), b.retirements) && (forall rule <- old(rows) :: rule in rules)
                   && (forall x <- b.sources :: MeetsRow(old(View()), x, b.migrations))
                   && (forall k :: 0 <= k < |b.sources| ==> FreeInTurn(old(View()), b.sources, k)))
      ensures old(Apart(View())) && accepted ==>
                forall rule <- old(rows) :: rule in rows
                  && (rows[rule].path == old(rows)[rule].path
                      || (rule in b.migrations && b.migrations[rule] == (old(rows)[rule].path, rows[rule].path)))
      ensures old(Coherent(View())) && accepted ==>
                && (forall x <- b.sources :: x.rule in rows && rows[x.rule].path == x.path && rows[x.rule].kind == Release
                      && rows[x.rule].version == x.raw.version && rows[x.rule].digest == Sha256(x.raw))
                && (forall rule <- b.retirements :: rule in rows ==>
                      rule in resources && rows[rule].kind == Retired && resources[rule].archived)
    {
      ghost var before := View();
      accepted := Transact(rules, b);
      hide Sync, Coherent, Apart;
      if Apart(before) { AcceptedPlainly(rules, before, b); }
      if Apart(before) && accepted { MovesDeclared(rules, before, b); }
      if Coherent(before) && accepted { ReleaseMeans(rules, before, b); }
    }

    /** The statements of the transaction. */
    method Transact(rules: set<nat>, b: Bundle) returns (accepted: bool)
      modifies this
      ensures accepted <==> Sync(rules, old(View()), b).Some?
      ensures View() == if accepted then Sync(rules, old(View()), b).value else old(View())
    {
      hide SyncOne, MayRetire, NothingMissing, Loads, Retire;
      if !Loads(rules, b) || !(forall rule <- b.retirements :: MayRetire(View(), rule, b.retirements[rule])) { return false; }
      var start := View();
      for k := 0 to |b.sources|
        invariant SyncAll(start, b.sources[..k], b.migrations) == Some(View())
      {
        assert b.sources[..k + 1][..k] == b.sources[..k];
        var ok := Apply(b.sources[k], b.migrations);
        if !ok {
          RefusedStays(start, b.sources, b.migrations, k + 1);
          rows, resources, past := start.rows, start.resources, start.past;
          return false;
        }
      }
      assert b.sources[..|b.sources|] == b.sources;
      var done := Retire(View(), b.retirements.Keys);
      rows, resources, past := done.rows, done.resources, done.past;
      if !NothingMissing(View(), b) {
        rows, resources, past := start.rows, start.resources, start.past;
        return false;
      }
      return true;
    }
  }

  lemma {:induction false} RefusedStays(s: Store, xs: seq<Source>, migrations: map<nat, (string, string)>, k: nat)
    requires k <= |xs| && SyncAll(s, xs[..k], migrations).None?
    ensures SyncAll(s, xs, migrations).None?
    decreases |xs|
  {
    hide SyncOne;
    if k < |xs| {
      assert xs[..|xs| - 1][..k] == xs[..k];
      RefusedStays(s, xs[..|xs| - 1], migrations, k);
    } else {
      assert xs[..k] == xs;
    }
  }
}
