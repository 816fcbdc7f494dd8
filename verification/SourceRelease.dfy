/**
 * What a release does to the rules it ships and retires, which releases are accepted, and what
 * holds over any sequence of them.
 */
module SourceRelease {
  import opened Wrappers
  import opened SourceSync

  // ---------- histories ----------

  /** The history of a rule before and after: unchanged, or one strictly newer version longer. */
  predicate Extends(before: seq<Revision>, after: seq<Revision>) {
    before <= after && |after| <= |before| + 1
  }

  lemma SyncOneHistory(s: Store, x: Source, migrations: map<nat, (string, string)>)
    requires Agree(s, x.rule) && Acceptable(s, x, migrations)
    ensures var t := Placed(s, x);
            && Extends(Past(s, x.rule), Past(t, x.rule)) && x.rule in t.rows
            && t.rows[x.rule].digest == Sha256(x.raw) && t.rows[x.rule].version == x.raw.version && t.rows[x.rule].path == x.path
            && (x.rule in s.rows ==>
                  && s.rows[x.rule].version <= x.raw.version
                  && (s.rows[x.rule].version == x.raw.version <==> s.rows[x.rule].digest == Sha256(x.raw))
                  && (Past(t, x.rule) == Past(s, x.rule) <==> s.rows[x.rule].digest == Sha256(x.raw)))
  {
    hide GoodPast;
  }

  lemma RetireSame(s: Store, rules: set<nat>, rule: nat)
    ensures rule !in rules ==> SameRule(s, Retire(s, rules), rule)
    ensures Past(Retire(s, rules), rule) == Past(s, rule)
    ensures rule in s.rows ==>
              rule in Retire(s, rules).rows && Retire(s, rules).rows[rule] == if rule in rules then s.rows[rule].(kind := Retired) else s.rows[rule]
  {
  }

  /** What an accepted release does to the rule of its k-th source. */
  lemma SyncShips(rules: set<nat>, s: Store, b: Bundle, k: nat)
    requires Coherent(s) && Sync(rules, s, b).Some? && k < |b.sources|
    ensures var x, t := b.sources[k], Sync(rules, s, b).value;
            && Extends(Past(s, x.rule), Past(t, x.rule)) && x.rule in t.rows && t.rows[x.rule].kind == Release
            && t.rows[x.rule].digest == Sha256(x.raw) && t.rows[x.rule].version == x.raw.version
            && (x.rule in s.rows ==>
                  && s.rows[x.rule].kind == Release && s.rows[x.rule].version <= x.raw.version
                  && (s.rows[x.rule].version == x.raw.version <==> s.rows[x.rule].digest == Sha256(x.raw))
                  && (Past(t, x.rule) == Past(s, x.rule) <==> s.rows[x.rule].digest == Sha256(x.raw)))
  {
    var x := b.sources[k];
    var synced := SyncAll(s, b.sources, b.migrations).value;
    LoadsOneEach(rules, b);
    NotRetired(rules, b, k);
    hide SyncAll, Retire, MayRetire, NothingMissing, Loads, OneEach;
    assert Agree(s, x.rule);
    SyncAllAt(s, b.sources, b.migrations, k);
    SyncOneHistory(s, x, b.migrations);
    RetireSame(synced, b.retirements.Keys, x.rule);
  }

  lemma LoadsOneEach(rules: set<nat>, b: Bundle)
    requires Loads(rules, b)
    ensures OneEach(b.sources)
  {
  }

  lemma NotRetired(rules: set<nat>, b: Bundle, k: nat)
    requires Loads(rules, b) && k < |b.sources|
    ensures b.sources[k].rule !in b.retirements && b.sources[k].rule in rules
  {
    assert b.sources[k] in b.sources;
    assert b.sources[k].rule in RulesOf(b.sources);
  }

  lemma KnownShipped(rules: set<nat>, b: Bundle, rule: nat)
    requires Loads(rules, b) && rule in rules && rule !in b.retirements
    ensures exists k :: 0 <= k < |b.sources| && b.sources[k].rule == rule
  {
    assert rule in RulesOf(b.sources);
    var x :| x in b.sources && x.rule == rule;
    var k :| 0 <= k < |b.sources| && b.sources[k] == x;
  }

  /** A rule that is retired, by this release or before it, keeps its history and stays retired. */
  lemma RetiredStays(rules: set<nat>, s: Store, b: Bundle, rule: nat)
    requires Coherent(s) && Sync(rules, s, b).Some? && rule in s.rows
    requires rule in b.retirements || s.rows[rule].kind == Retired
    ensures var t := Sync(rules, s, b).value;
            && rule in t.rows && t.rows[rule] == s.rows[rule].(kind := Retired) && Past(t, rule) == Past(s, rule)
            && rule in t.resources && t.resources[rule].archived
  {
    SyncKeeps(rules, s, b);
    assert Agree(Sync(rules, s, b).value, rule);
    var synced := SyncAll(s, b.sources, b.migrations).value;
    if exists k :: 0 <= k < |b.sources| && b.sources[k].rule == rule {
      var k :| 0 <= k < |b.sources| && b.sources[k].rule == rule;
      NotRetired(rules, b, k);
      SyncShips(rules, s, b, k);
    }
    hide Agree, MayRetire, NothingMissing, Loads, Coherent;
    assert NotAmong(rule, b.sources);
    SyncAllLocal(s, b.sources, b.migrations, rule);
    RetireSame(synced, b.retirements.Keys, rule);
    hide SyncAll, Retire;
  }

  // ---------- the same release twice ----------

  /** The store already shows this source. */
  predicate Shows(t: Store, x: Source) {
    && x.rule in t.rows && x.rule in t.resources && t.resources[x.rule].form == Form(x.rule)
    && t.rows[x.rule].kind == Release && t.rows[x.rule].rule == x.rule && t.rows[x.rule].path == x.path
    && t.rows[x.rule].digest == Sha256(x.raw) && t.rows[x.rule].version == x.raw.version
    && t.resources[x.rule].revision == Some(t.rows[x.rule].revision)
  }

  lemma {:induction false} ShownSyncs(t: Store, xs: seq<Source>, migrations: map<nat, (string, string)>)
    requires forall x <- xs :: Shows(t, x)
    ensures SyncAll(t, xs, migrations) == Some(t)
    decreases |xs|
  {
    if xs != [] {
      var init, last := xs[..|xs| - 1], xs[|xs| - 1];
      assert last in xs && forall x <- init :: x in xs;
      ShownSyncs(t, init, migrations);
      ShownOne(t, last, migrations);
    }
  }

  lemma ShownOne(t: Store, x: Source, migrations: map<nat, (string, string)>)
    requires Shows(t, x)
    ensures SyncOne(t, x, migrations) == Some(t)
  {
    assert Settled(t, x) && t.rows[x.rule := t.rows[x.rule].(path := x.path)] == t.rows;
  }

  lemma SyncedShows(rules: set<nat>, s: Store, b: Bundle, k: nat)
    requires Coherent(s) && Sync(rules, s, b).Some? && k < |b.sources|
    ensures Shows(Sync(rules, s, b).value, b.sources[k])
  {
    var x, t := b.sources[k], Sync(rules, s, b).value;
    SyncShips(rules, s, b, k);
    SyncKeeps(rules, s, b);
    assert Agree(t, x.rule) && Agree(s, x.rule);
    assert Loads(rules, b) && t == Retire(SyncAll(s, b.sources, b.migrations).value, b.retirements.Keys);
    ShippedRow(rules, s, b, k);
  }

  /** The retired rules of an accepted release are pinned by it, before and after. */
  lemma RetiredPinned(rules: set<nat>, s: Store, b: Bundle, rule: nat)
    requires Coherent(s) && Sync(rules, s, b).Some? && rule in b.retirements
    ensures var t := Sync(rules, s, b).value;
            && MayRetire(t, rule, b.retirements[rule])
            && (rule in t.rows ==> t.rows[rule].kind == Retired && t.resources[rule].archived)
  {
    var t := Sync(rules, s, b).value;
    SyncKeeps(rules, s, b);
    assert MayRetire(s, rule, b.retirements[rule]) && Agree(t, rule);
    if rule in s.rows {
      RetiredStays(rules, s, b, rule);
    } else {
      AbsentStays(rules, s, b, rule);
    }
  }

  lemma AbsentStays(rules: set<nat>, s: Store, b: Bundle, rule: nat)
    requires Sync(rules, s, b).Some? && rule in b.retirements && rule !in s.rows
    ensures rule !in Sync(rules, s, b).value.rows
  {
    forall x | x in b.sources ensures x.rule != rule {
      var k :| 0 <= k < |b.sources| && b.sources[k] == x;
      NotRetired(rules, b, k);
    }
    hide MayRetire, NothingMissing, Loads, SyncAll;
    SyncAllLocal(s, b.sources, b.migrations, rule);
  }

  lemma RetireSettled(t: Store, rules: set<nat>)
    requires forall rule <- rules :: rule in t.rows ==> t.rows[rule].kind == Retired && rule in t.resources && t.resources[rule].archived
    ensures Retire(t, rules) == t
  {
  }

  /** Syncing the same release again is accepted and changes nothing. */
  lemma SyncTwice(rules: set<nat>, s: Store, b: Bundle)
    requires Coherent(s) && Sync(rules, s, b).Some?
    ensures Sync(rules, Sync(rules, s, b).value, b) == Sync(rules, s, b)
  {
    var t := Sync(rules, s, b).value;
    assert Loads(rules, b) && NothingMissing(t, b);
    hide SyncAll, Retire, NothingMissing, Loads, Coherent, Shows, MayRetire;
    forall x | x in b.sources ensures Shows(t, x) {
      var k :| 0 <= k < |b.sources| && b.sources[k] == x;
      SyncedShows(rules, s, b, k);
    }
    forall rule | rule in b.retirements
      ensures MayRetire(t, rule, b.retirements[rule])
      ensures rule in t.rows ==> t.rows[rule].kind == Retired && rule in t.resources && t.resources[rule].archived
    {
      RetiredPinned(rules, s, b, rule);
      SyncKeeps(rules, s, b);
      InResources(t, rule);
    }
    ShownSyncs(t, b.sources, b.migrations);
    RetireSettled(t, b.retirements.Keys);
  }

  lemma InResources(t: Store, rule: nat)
    requires Coherent(t)
    ensures rule in t.rows <==> rule in t.resources
  {
    assert Agree(t, rule);
  }

  // ---------- exactly which releases are accepted ----------

  /**
   * A release is accepted exactly under conditions that can be read off the store before the
   * sync: its retirements are pinned, it knows every rule of the store, and each source is
   * acceptable and finds its path free at its turn.
   */
  lemma AcceptedIff(rules: set<nat>, s: Store, b: Bundle)
    requires Apart(s)
    ensures Sync(rules, s, b).Some? <==>
            && Loads(rules, b) && (forall rule <- b.retirements :: MayRetire(s, rule, b.retirements[rule]))
            && (forall k :: 0 <= k < |b.sources| ==> Admitted(s, b.sources, b.migrations, k)) && s.rows.Keys <= rules
  {
    hide MayRetire, Admitted;
    if Loads(rules, b) {
      LoadsOneEach(rules, b);
      SyncAllIff(s, b.sources, b.migrations);
      if SyncAll(s, b.sources, b.migrations).Some? {
        MissingIff(rules, s, b);
      }
    }
  }

  /** How an untouched or retired rule's row looks after the sources and the retirements. */
  lemma OtherRow(rules: set<nat>, s: Store, b: Bundle, rule: nat)
    requires Loads(rules, b) && SyncAll(s, b.sources, b.migrations).Some?
    requires rule !in rules || rule in b.retirements
    ensures var t := Retire(SyncAll(s, b.sources, b.migrations).value, b.retirements.Keys);
            (rule in t.rows <==> rule in s.rows) && (rule in t.rows ==> t.rows[rule].path == s.rows[rule].path)
  {
    forall x | x in b.sources ensures x.rule != rule {
      var k :| 0 <= k < |b.sources| && b.sources[k] == x;
      NotRetired(rules, b, k);
    }
    hide SyncAll, Loads;
    SyncAllLocal(s, b.sources, b.migrations, rule);
  }

  lemma ShippedRow(rules: set<nat>, s: Store, b: Bundle, k: nat)
    requires Loads(rules, b) && SyncAll(s, b.sources, b.migrations).Some? && k < |b.sources|
    ensures var x, t := b.sources[k], Retire(SyncAll(s, b.sources, b.migrations).value, b.retirements.Keys);
            x.rule in t.rows && t.rows[x.rule].path == x.path
  {
    LoadsOneEach(rules, b);
    NotRetired(rules, b, k);
    hide SyncAll, Retire, Loads, OneEach, Placed;
    SyncAllAt(s, b.sources, b.migrations, k);
    PlacedPath(s, b.sources[k]);
    RetireSame(SyncAll(s, b.sources, b.migrations).value, b.retirements.Keys, b.sources[k].rule);
  }

  lemma MissingIff(rules: set<nat>, s: Store, b: Bundle)
    requires Apart(s) && Loads(rules, b) && SyncAll(s, b.sources, b.migrations).Some?
    ensures NothingMissing(Retire(SyncAll(s, b.sources, b.migrations).value, b.retirements.Keys), b) <==> s.rows.Keys <= rules
  {
    var t := Retire(SyncAll(s, b.sources, b.migrations).value, b.retirements.Keys);
    assert b.retirements.Keys <= rules;
    hide SyncAll, Retire, Apart;
    SyncAllApart(s, b.sources, b.migrations);
    RetireApart(SyncAll(s, b.sources, b.migrations).value, b.retirements.Keys);
    forall r | r in b.retirements || r !in rules
      ensures (r in t.rows <==> r in s.rows) && (r in t.rows ==> t.rows[r].path == s.rows[r].path)
    {
      OtherRow(rules, s, b, r);
    }
    forall x | x in b.sources ensures x.rule in rules && x.rule in t.rows && t.rows[x.rule].path == x.path {
      var k :| 0 <= k < |b.sources| && b.sources[k] == x;
      NotRetired(rules, b, k);
      ShippedRow(rules, s, b, k);
    }
    forall r | r in rules && r !in b.retirements ensures exists x <- b.sources :: x.rule == r {
      KnownShipped(rules, b, r);
      var k :| 0 <= k < |b.sources| && b.sources[k].rule == r;
      assert b.sources[k] in b.sources;
    }
    hide Loads;
    MissingFrom(rules, s, t, b);
  }

  lemma AreApart(s: Store)
    requires Coherent(s)
    ensures Apart(s)
  {
  }

  /** The same, from what is known about the rows of the result. */
  lemma MissingFrom(rules: set<nat>, s: Store, t: Store, b: Bundle)
    requires Apart(t) && b.retirements.Keys <= rules
    requires forall r :: r in b.retirements || r !in rules ==>
               (r in t.rows <==> r in s.rows) && (r in t.rows ==> t.rows[r].path == s.rows[r].path)
    requires forall x <- b.sources :: x.rule in rules && x.rule in t.rows && t.rows[x.rule].path == x.path
    requires forall r :: r in rules && r !in b.retirements ==> exists x <- b.sources :: x.rule == r
    ensures NothingMissing(t, b) <==> s.rows.Keys <= rules
  {
  }

  // ---------- the same, spelled out ----------

  /** Every known rule once, from its own text and path, or retired; only shipped rules move. */
  predicate Inventory(rules: set<nat>, b: Bundle) {
    && (forall x <- b.sources :: x.raw.rule == x.rule && x.rule in rules && x.rule !in b.retirements)
    && (forall i, j :: 0 <= i < j < |b.sources| ==> b.sources[i].rule != b.sources[j].rule && b.sources[i].path != b.sources[j].path)
    && (forall rule <- rules :: rule in b.retirements || exists x <- b.sources :: x.rule == rule)
    && (forall rule <- b.retirements :: rule in rules)
    && (forall rule <- b.migrations :: rule in rules && rule !in b.retirements)
    && forall x <- b.sources :: x.rule in b.migrations ==> b.migrations[x.rule].1 == x.path
  }

  /**
   * What a release retires stands in the store just as its pin says, its own rule, its resource in
   * the prescribed form and pointing to the row's revision, archived if it was retired before; or
   * it has neither row nor resource.
   */
  predicate PinsHold(s: Store, retirements: map<nat, Pin>) {
    forall rule <- retirements :: PinHolds(s, rule, retirements[rule])
  }

  predicate PinHolds(s: Store, rule: nat, pin: Pin) {
    && (rule !in s.rows ==> rule !in s.resources)
    && (rule in s.rows ==>
          && s.rows[rule].path == pin.path && s.rows[rule].version == pin.version && s.rows[rule].digest == pin.digest
          && s.rows[rule].rule == rule
          && rule in s.resources && s.resources[rule].form == rule && s.resources[rule].revision == Some(s.rows[rule].revision)
          && (s.rows[rule].kind == Retired ==> s.resources[rule].archived))
  }

  /**
   * A resource that is there has the prescribed form. A rule that has a row is still released and
   * its own, its resource points to the row's revision, its path changes only as declared, and
   * its version stays with the digest, or grows.
   */
  predicate MeetsRow(s: Store, x: Source, migrations: map<nat, (string, string)>) {
    && (x.rule in s.resources ==> s.resources[x.rule].form == x.rule)
    && (x.rule in s.rows ==>
          var row := s.rows[x.rule];
          && row.kind == Release && row.rule == x.rule
          && x.rule in s.resources && s.resources[x.rule].revision == Some(row.revision)
          && (row.path != x.path ==> x.rule in migrations && migrations[x.rule] == (row.path, x.path))
          && (row.digest == Sha256(x.raw) ==> row.version == x.raw.version)
          && (row.digest != Sha256(x.raw) ==> x.raw.version > row.version))
  }

  /** Whoever holds the path of a source is moved by an earlier one. */
  predicate FreeInTurn(s: Store, xs: seq<Source>, k: nat)
    requires k < |xs|
  {
    forall rule <- s.rows :: rule != xs[k].rule && s.rows[rule].path == xs[k].path ==> exists j :: 0 <= j < k && xs[j].rule == rule
  }

  /**
   * A release is accepted exactly if its inventory is in order, its pins hold, the store has no
   * rule that it does not know, and each source meets its row and finds its path free in turn. This
   * is so for every store in which no two rows hold one path, coherent or not.
   */
  lemma AcceptedPlainly(rules: set<nat>, s: Store, b: Bundle)
    requires Apart(s)
    ensures Sync(rules, s, b).Some? <==>
            && Inventory(rules, b) && PinsHold(s, b.retirements) && (forall rule <- s.rows :: rule in rules)
            && (forall x <- b.sources :: MeetsRow(s, x, b.migrations))
            && (forall k :: 0 <= k < |b.sources| ==> FreeInTurn(s, b.sources, k))
  {
    AcceptedIff(rules, s, b);
    LoadsPlainly(rules, b);
    RetirePlainly(s, b.retirements);
    forall k | 0 <= k < |b.sources|
      ensures Admitted(s, b.sources, b.migrations, k) <==> MeetsRow(s, b.sources[k], b.migrations) && FreeInTurn(s, b.sources, k)
    {
      AcceptablePlainly(s, b.sources[k], b.migrations);
      ClearedPlainly(s, b.sources, k);
    }
    hide Sync, Loads, Inventory, PinsHold, MayRetire, Admitted, Acceptable, Cleared, Apart, MeetsRow, FreeInTurn;
    assert (forall x <- b.sources :: MeetsRow(s, x, b.migrations)) <==>
           forall k :: 0 <= k < |b.sources| ==> MeetsRow(s, b.sources[k], b.migrations);
  }

  lemma LoadsPlainly(rules: set<nat>, b: Bundle)
    ensures Loads(rules, b) <==> Inventory(rules, b)
  {
    RulesPlainly(b.sources);
    var shipped := RulesOf(b.sources);
    if Inventory(rules, b) {
      forall rule | rule in shipped ensures rule in rules && rule !in b.retirements {
        var x :| x in b.sources && x.rule == rule;
      }
      assert shipped == rules - b.retirements.Keys;
      assert b.retirements.Keys <= rules;
    }
    if Loads(rules, b) {
      forall x | x in b.sources ensures x.rule in rules && x.rule !in b.retirements {
        assert x.rule in shipped;
      }
      forall rule | rule in rules && rule !in b.retirements ensures exists x <- b.sources :: x.rule == rule {
        assert rule in shipped;
      }
      forall rule | rule in b.retirements ensures rule in rules {
        assert rule in b.retirements.Keys;
      }
    }
  }

  lemma RulesPlainly(xs: seq<Source>)
    ensures forall rule: nat :: rule in RulesOf(xs) <==> exists x <- xs :: x.rule == rule
  {
  }

  lemma RetirePlainly(s: Store, retirements: map<nat, Pin>)
    ensures (forall rule <- retirements :: MayRetire(s, rule, retirements[rule])) <==> PinsHold(s, retirements)
  {
    forall rule | rule in retirements ensures MayRetire(s, rule, retirements[rule]) <==> PinHolds(s, rule, retirements[rule]) {
      PinPlainly(s, rule, retirements[rule]);
    }
    hide MayRetire, PinHolds;
  }

  lemma PinPlainly(s: Store, rule: nat, pin: Pin)
    ensures MayRetire(s, rule, pin) <==> PinHolds(s, rule, pin)
  {
  }

  lemma AcceptablePlainly(s: Store, x: Source, migrations: map<nat, (string, string)>)
    ensures Acceptable(s, x, migrations) <==> MeetsRow(s, x, migrations)
  {
  }

  lemma ClearedPlainly(s: Store, xs: seq<Source>, k: nat)
    requires k < |xs|
    ensures Cleared(s, xs, k) <==> FreeInTurn(s, xs, k)
  {
    forall rule: nat ensures rule in RulesOf(xs[..k]) <==> exists j :: 0 <= j < k && xs[j].rule == rule {
      if rule in RulesOf(xs[..k]) {
        var j :| 0 <= j < k && xs[..k][j].rule == rule;
        assert xs[j].rule == rule;
      }
      if j :| 0 <= j < k && xs[j].rule == rule { assert xs[..k][j] in xs[..k]; }
    }
  }

  /** An accepted release leaves every path where it was, or moves it exactly as its migrations declare. */
  lemma MovesDeclared(rules: set<nat>, s: Store, b: Bundle)
    requires Apart(s) && Sync(rules, s, b).Some?
    ensures var t := Sync(rules, s, b).value;
            forall rule <- s.rows :: rule in t.rows
              && (t.rows[rule].path == s.rows[rule].path
                  || (rule in b.migrations && b.migrations[rule] == (s.rows[rule].path, t.rows[rule].path)))
  {
    AcceptedPlainly(rules, s, b);
    LoadsPlainly(rules, b);
    assert Sync(rules, s, b).value == Retire(SyncAll(s, b.sources, b.migrations).value, b.retirements.Keys);
    hide Sync, Loads, SyncAll, Retire, Apart;
    forall x | x in b.sources
      ensures x.rule in Sync(rules, s, b).value.rows && Sync(rules, s, b).value.rows[x.rule].path == x.path
    {
      var k :| 0 <= k < |b.sources| && b.sources[k] == x;
      ShippedRow(rules, s, b, k);
    }
    forall rule | rule in b.retirements || rule !in rules
      ensures var t := Sync(rules, s, b).value;
              (rule in t.rows <==> rule in s.rows) && (rule in t.rows ==> t.rows[rule].path == s.rows[rule].path)
    {
      OtherRow(rules, s, b, rule);
    }
  }

  /** What an accepted release has done: every move was declared, what it ships stands there, what it retires is retired. */
  lemma ReleaseMeans(rules: set<nat>, s: Store, b: Bundle)
    requires Coherent(s) && Sync(rules, s, b).Some?
    ensures var t := Sync(rules, s, b).value;
            && Coherent(t)
            && (forall rule <- s.rows :: rule in t.rows
                  && (t.rows[rule].path == s.rows[rule].path
                      || (rule in b.migrations && b.migrations[rule] == (s.rows[rule].path, t.rows[rule].path))))
            && (forall x <- b.sources :: x.rule in t.rows && t.rows[x.rule].path == x.path && t.rows[x.rule].kind == Release
                  && t.rows[x.rule].version == x.raw.version && t.rows[x.rule].digest == Sha256(x.raw))
            && (forall rule <- b.retirements :: rule in t.rows ==>
                  rule in t.resources && t.rows[rule].kind == Retired && t.resources[rule].archived)
            && (forall rule <- t.rows :: rule in s.rows || exists x <- b.sources :: x.rule == rule)
  {
    var t := Sync(rules, s, b).value;
    SyncKeeps(rules, s, b);
    AreApart(s);
    MovesDeclared(rules, s, b);
    AcceptedPlainly(rules, s, b);
    LoadsPlainly(rules, b);
    assert t == Retire(SyncAll(s, b.sources, b.migrations).value, b.retirements.Keys);
    forall x | x in b.sources
      ensures x.rule in t.rows && t.rows[x.rule].path == x.path && t.rows[x.rule].kind == Release
      ensures t.rows[x.rule].version == x.raw.version && t.rows[x.rule].digest == Sha256(x.raw)
    {
      var k :| 0 <= k < |b.sources| && b.sources[k] == x;
      SyncShips(rules, s, b, k);
      ShippedRow(rules, s, b, k);
    }
    forall rule | rule in b.retirements && rule in t.rows ensures rule in t.resources && t.rows[rule].kind == Retired && t.resources[rule].archived {
      RetiredPinned(rules, s, b, rule);
      InResources(t, rule);
    }
    hide Sync, Loads, SyncAll, Retire, Coherent;
    forall rule | rule in b.retirements || rule !in rules
      ensures (rule in t.rows <==> rule in s.rows) && (rule in t.rows ==> t.rows[rule].path == s.rows[rule].path)
    {
      OtherRow(rules, s, b, rule);
    }
  }

  // ---------- paths that are not free ----------

  /** Sources each of which moves to a path that another of them holds. */
  predicate Tangled(s: Store, xs: seq<Source>, tangle: set<nat>) {
    tangle != {} && forall k <- tangle :: k < |xs| && Waits(s, xs, tangle, k)
  }

  predicate Waits(s: Store, xs: seq<Source>, tangle: set<nat>, k: nat)
    requires k < |xs|
  {
    exists j <- tangle :: j != k && j < |xs| && Holds(s, xs[j].rule, xs[k].path)
  }

  predicate Holds(s: Store, rule: nat, path: string) {
    rule in s.rows && s.rows[rule].path == path
  }

  lemma {:induction false} Least(indices: set<nat>) returns (k: nat)
    requires indices != {}
    ensures k in indices && forall j <- indices :: k <= j
    decreases |indices|
  {
    var one :| one in indices;
    var rest := indices - {one};
    k := one;
    if rest != {} {
      var m := Least(rest);
      if m < one { k := m; }
    }
    forall j | j in indices ensures k <= j {
      assert j == one || j in rest;
    }
  }

  lemma HeldLater(s: Store, xs: seq<Source>, j: nat, k: nat)
    requires OneEach(xs) && k < j < |xs| && Holds(s, xs[j].rule, xs[k].path)
    ensures !Cleared(s, xs, k)
  {
    assert xs[j].rule in s.rows && xs[j].rule !in RulesOf(xs[..k]);
  }

  lemma TangleStuck(s: Store, xs: seq<Source>, tangle: set<nat>) returns (k: nat)
    requires OneEach(xs) && Tangled(s, xs, tangle)
    ensures k < |xs| && !Cleared(s, xs, k)
  {
    hide OneEach, Cleared, Holds;
    k := Least(tangle);
    assert Waits(s, xs, tangle, k);
    var j :| j in tangle && j != k && j < |xs| && Holds(s, xs[j].rule, xs[k].path);
    HeldLater(s, xs, j, k);
  }

  /** However declared, rules cannot exchange their paths, two of them or more in a ring, in any order. */
  lemma TangleRefused(rules: set<nat>, s: Store, b: Bundle, tangle: set<nat>)
    requires Apart(s) && Tangled(s, b.sources, tangle)
    ensures Sync(rules, s, b) == None
  {
    hide Sync, Acceptable, MayRetire, Apart, Tangled, Cleared;
    AcceptedIff(rules, s, b);
    if Loads(rules, b) {
      LoadsOneEach(rules, b);
      hide Loads, OneEach;
      var k := TangleStuck(s, b.sources, tangle);
      assert !Admitted(s, b.sources, b.migrations, k);
    }
  }

  /** No source can take the path of a rule that the release retires or does not ship. */
  lemma TakenRefused(rules: set<nat>, s: Store, b: Bundle, k: nat, rule: nat)
    requires Apart(s) && k < |b.sources| && Holds(s, rule, b.sources[k].path) && rule !in RulesOf(b.sources)
    ensures Sync(rules, s, b) == None
  {
    AcceptedIff(rules, s, b);
    hide Sync, Loads, Acceptable, MayRetire, Apart;
    assert b.sources[k] in b.sources;
    assert !Admitted(s, b.sources, b.migrations, k);
  }

  /** One rule moves to where another moves away from: only the order decides. */
  lemma OrderDecides(s: Store, x: Source, y: Source, migrations: map<nat, (string, string)>)
    requires Apart(s) && x.rule != y.rule && x.path != y.path
    requires Acceptable(s, x, migrations) && Acceptable(s, y, migrations) && Holds(s, y.rule, x.path) && Vacant(s, y)
    ensures SyncAll(s, [x, y], migrations).None? && SyncAll(s, [y, x], migrations).Some?
  {
    hide Acceptable, SyncAll;
    var xs, ys := [x, y], [y, x];
    SyncAllIff(s, xs, migrations);
    SyncAllIff(s, ys, migrations);
    assert xs[..0] == [] && ys[..0] == [] && ys[..1] == [y];
    assert y.rule !in RulesOf(xs[..0]) && !Admitted(s, xs, migrations, 0);
    assert y in ys[..1] && y.rule in RulesOf(ys[..1]);
    forall r | r in s.rows && r != x.rule && s.rows[r].path == x.path ensures r in RulesOf(ys[..1]) {
      assert r == y.rule;
    }
    assert Admitted(s, ys, migrations, 0) && Admitted(s, ys, migrations, 1);
  }

  /** A store with two rules at "a" and "b", and the release in which they change places. */
  function TwoRules(): Store {
    var t0, t1 := Text(0, 1, 0), Text(1, 1, 0);
    var i0, i1 := RevisionId(0, Sha256(t0), 1), RevisionId(1, Sha256(t1), 1);
    Store(
      map[0 := Row("a", 0, Release, 1, Sha256(t0), i0), 1 := Row("b", 1, Release, 1, Sha256(t1), i1)],
      map[0 := Resource(Form(0), false, 1, Some(i0)), 1 := Resource(Form(1), false, 1, Some(i1))],
      map[0 := [Revision(i0, None)], 1 := [Revision(i1, None)]])
  }

  function Swap(): Bundle {
    Bundle([Source(0, "b", Text(0, 1, 0)), Source(1, "a", Text(1, 1, 0))], map[], map[0 := ("a", "b"), 1 := ("b", "a")])
  }

  lemma TwoRulesCoherent()
    ensures Coherent(TwoRules())
  {
    var s := TwoRules();
    DifferentPaths();
    forall rule: nat ensures Agree(s, rule) {
      if rule < 2 { assert LinkedAt(rule, Past(s, rule), 0); }
    }
  }

  lemma DifferentPaths()
    ensures "a" != "b"
  {
    assert "a"[0] != "b"[0];
  }

  lemma SwapLoads()
    ensures Loads({0, 1}, Swap())
  {
    var xs := Swap().sources;
    DifferentPaths();
    assert xs[0] in xs && xs[1] in xs;
    assert RulesOf(xs) == {0, 1};
  }

  lemma SwapAcceptable()
    ensures forall x <- Swap().sources :: Acceptable(TwoRules(), x, Swap().migrations)
  {
    DifferentPaths();
  }

  lemma SwapTangled()
    ensures Tangled(TwoRules(), Swap().sources, {0, 1})
  {
    var s, xs := TwoRules(), Swap().sources;
    assert Holds(s, xs[1].rule, xs[0].path) && Holds(s, xs[0].rule, xs[1].path);
    assert 0 in {0, 1} && 1 in {0, 1};
  }

  /** A swap that declares both moves passes every other check and is refused all the same. */
  lemma SwapRefused()
    ensures Coherent(TwoRules()) && Loads({0, 1}, Swap())
    ensures forall x <- Swap().sources :: Acceptable(TwoRules(), x, Swap().migrations)
    ensures Sync({0, 1}, TwoRules(), Swap()) == None
  {
    hide TwoRules, Swap, Sync, Loads, Tangled, Acceptable, Coherent;
    TwoRulesCoherent();
    AreApart(TwoRules());
    SwapLoads();
    SwapAcceptable();
    SwapTangled();
    TangleRefused({0, 1}, TwoRules(), Swap(), {0, 1});
  }

  // ---------- many releases ----------

  datatype Upgrade = Upgrade(rules: set<nat>, bundle: Bundle)

  /** Refused releases leave the store as it was. */
  function Upgraded(s: Store, upgrades: seq<Upgrade>): Store
    decreases |upgrades|
  {
    if upgrades == [] then s
    else
      var next := Sync(upgrades[0].rules, s, upgrades[0].bundle);
      Upgraded(if next.Some? then next.value else s, upgrades[1..])
  }

  lemma {:induction false} UpgradedCoherent(s: Store, upgrades: seq<Upgrade>)
    requires Coherent(s)
    ensures Coherent(Upgraded(s, upgrades))
    decreases |upgrades|
  {
    hide Sync, Coherent;
    if upgrades != [] {
      var next := Sync(upgrades[0].rules, s, upgrades[0].bundle);
      if next.Some? { SyncKeeps(upgrades[0].rules, s, upgrades[0].bundle); }
      UpgradedCoherent(if next.Some? then next.value else s, upgrades[1..]);
    }
  }

  /** Nothing ever leaves a rule's history. */
  lemma HistoryGrows(rules: set<nat>, s: Store, b: Bundle, rule: nat)
    requires Coherent(s) && Sync(rules, s, b).Some?
    ensures Extends(Past(s, rule), Past(Sync(rules, s, b).value, rule))
    ensures rule in s.rows && s.rows[rule].kind == Retired ==>
              rule in Sync(rules, s, b).value.rows && Sync(rules, s, b).value.rows[rule].kind == Retired
              && Past(Sync(rules, s, b).value, rule) == Past(s, rule)
  {
    if rule in s.rows && s.rows[rule].kind == Retired {
      RetiredStays(rules, s, b, rule);
    } else if exists k :: 0 <= k < |b.sources| && b.sources[k].rule == rule {
      var k :| 0 <= k < |b.sources| && b.sources[k].rule == rule;
      SyncShips(rules, s, b, k);
    } else {
      hide MayRetire, NothingMissing, Loads, Coherent, SyncAll;
      SyncAllLocal(s, b.sources, b.migrations, rule);
      RetireSame(SyncAll(s, b.sources, b.migrations).value, b.retirements.Keys, rule);
    }
  }

  lemma {:induction false} UpgradedGrows(s: Store, upgrades: seq<Upgrade>, rule: nat)
    requires Coherent(s)
    ensures Past(s, rule) <= Past(Upgraded(s, upgrades), rule)
    ensures rule in s.rows && s.rows[rule].kind == Retired ==>
              var t := Upgraded(s, upgrades); rule in t.rows && t.rows[rule].kind == Retired && Past(t, rule) == Past(s, rule)
    decreases |upgrades|
  {
    hide Sync, Coherent, Past;
    if upgrades != [] {
      var next := Sync(upgrades[0].rules, s, upgrades[0].bundle);
      if next.Some? {
        SyncKeeps(upgrades[0].rules, s, upgrades[0].bundle);
        HistoryGrows(upgrades[0].rules, s, upgrades[0].bundle, rule);
      }
      UpgradedGrows(if next.Some? then next.value else s, upgrades[1..], rule);
    }
  }

  lemma EmptyCoherent()
    ensures Coherent(Empty())
  {
  }

  /**
   * Over every sequence of releases from an empty store: versions rise strictly along a rule's
   * history, a digest never recurs, and row and resource point to the last revision.
   */
  lemma VersionsRise(upgrades: seq<Upgrade>, rule: nat, i: nat, j: nat)
    requires i < j < |Past(Upgraded(Empty(), upgrades), rule)|
    ensures var t := Upgraded(Empty(), upgrades);
            var past := Past(t, rule);
            && past[i].id.version < past[j].id.version && past[i].id.digest != past[j].id.digest
            && rule in t.rows && rule in t.resources
            && t.resources[rule].revision == Some(t.rows[rule].revision) && t.rows[rule].revision == past[|past| - 1].id
  {
    EmptyCoherent();
    UpgradedCoherent(Empty(), upgrades);
    var t := Upgraded(Empty(), upgrades);
    hide Upgraded;
    assert Agree(t, rule);
    var past := Past(t, rule);
    assert LinkedAt(rule, past, i) && LinkedAt(rule, past, j);
  }
}
