/** An approval and a revocation of one invitation whose steps interleave. */
module LinkCross {
  import opened Wrappers
  import opened LinkSaga
  import opened LinkRecovery
  import opened LinkOverlap

  /** No interleaving of an approval and a revocation records or reports a revocation that misses a delegation. */
  ghost predicate CrossSafe(w: World) {
    forall call: Call, turns: seq<Turn> :: call.Approve? ==> Truthful(RunCrew(Crew(Starts([call, Revoke]), w), turns))
  }

  /** A revocation recorded, ended, and false. */
  predicate Deceived(s: Crew) {
    |s.ps| == 2 && s.ps[1].Ended? && s.w.record.state == Revoked && !AllRevoked(s.w)
  }

  // ---------- an approval issues while a revocation is under way ----------

  /** Ten steps of an admitted approval issue, keep the grant file and unlink the journal. */
  lemma ApprovalIssues(w: World, call: Call, scope: nat)
    requires call.Approve? && Admits(w, call) && Open(w) && Sound(w) && scope == PinnedScope(w)
    ensures var after := Run(Start(call), w, Goods(scope, 10)).w;
            after.journal.None? && after.issued != map[] && after.revoked == {}
  {
    var choices := Goods(scope, 10);
    var a := Approval(call.request, ChosenMinutes(w.record, call.minutes));
    var r := Pinned(w.record, a, Good(scope));
    ClashFacts(w, call, scope);
    assert w.revoked == {};
    hide Sound, Open, Admits, Favourable, Run, ChosenMinutes, Pinned;
    BeginApproval(w, call, choices, scope);
    assert choices[1] == Good(scope) && choices[4..] == Goods(scope, 6);
    var w1 := w.(record := r);
    IssueOnce(r, w1, scope);
    Issued(w1, Good(scope).grant);
  }

  lemma Issued(w: World, made: Grant)
    ensures var after := IssuedOnce(w, made);
            after.journal.None? && after.revoked == w.revoked && JournalId(w) in after.issued && after.issued != map[]
  {
    assert JournalId(w) in IssuedOnce(w, made).issued;
  }

  /** The revocation gets as far as `early`, the approval issues, the revocation goes on. */
  function Overtaken(scope: nat, early: nat, late: nat): seq<Turn> {
    Turns(1, Goods(scope, early)) + Turns(0, Goods(scope, 10)) + Turns(1, Goods(scope, late))
  }

  /** Put together: what the revocation has in hand when it is overtaken, it saves without looking again. */
  lemma Overtake(w: World, call: Call, scope: nat, early: nat, late: nat, at: Process)
    requires call.Approve? && Admits(w, call) && Open(w) && Sound(w) && scope == PinnedScope(w)
    requires Run(Start(Revoke), w, Goods(scope, early)) == Situation(at, w)
    requires forall v: World :: v.journal.None? ==>
               Run(at, v, Goods(scope, late)) == Situation(Ended, v.(record := w.record.(state := Revoked)))
    ensures Deceived(RunCrew(Crew(Starts([call, Revoke]), w), Overtaken(scope, early, late)))
  {
    ApprovalIssues(w, call, scope);
    hide Sound, Open, Admits, Run, RunCrew, Turns, Goods, PinnedScope;
    var a := Run(Start(call), w, Goods(scope, 10));
    assert Starts([call, Revoke]) == [Start(call), Start(Revoke)];
    AloneOfTwo(Start(call), Start(Revoke), w, Goods(scope, early));
    AloneOfTwo(Start(call), at, w, Goods(scope, 10));
    AloneOfTwo(a.p, at, a.w, Goods(scope, late));
    RunThree(Crew(Starts([call, Revoke]), w), Turns(1, Goods(scope, early)), Turns(0, Goods(scope, 10)), Turns(1, Goods(scope, late)));
    Standing(a.w.(record := w.record.(state := Revoked)));
  }

  lemma Standing(w: World)
    requires w.issued != map[] && w.revoked == {}
    ensures !AllRevoked(w)
  {
    assert exists id :: id in w.issued;
  }

  /** Nothing was approved yet: the revocation reads the record, the approval issues, the revocation saves. */
  lemma RunMissed(w: World, call: Call, scope: nat)
    requires call.Approve? && Admits(w, call) && Open(w) && Sound(w) && scope == PinnedScope(w)
    requires w.record.approval.None?
    ensures Deceived(RunCrew(Crew(Starts([call, Revoke]), w), Overtaken(scope, 1, 1)))
  {
    var r := w.record;
    ReadsRecord(w, scope);
    forall v: World ensures Run(SaveRevoked(r), v, Goods(scope, 1)) == Situation(Ended, v.(record := r.(state := Revoked))) {
      EndRevoke(r, v, Goods(scope, 1));
    }
    hide Sound, Open, Admits, Run, Goods;
    Overtake(w, call, scope, 1, 1, SaveRevoked(r));
  }

  lemma ReadsRecord(w: World, scope: nat)
    requires w.record.delegation.None? && w.record.approval.None?
    ensures Run(Start(Revoke), w, Goods(scope, 1)) == Situation(SaveRevoked(w.record), w)
  {
    hide Run;
    Unfold(Start(Revoke), w, Goods(scope, 1));
    RunNone(SaveRevoked(w.record), w, Goods(scope, 1)[1..]);
  }

  /**
   * An earlier attempt was pinned, and may be journaled: the revocation finds no grant file, the
   * approval issues and unlinks the journal, and then the revocation finds no journal.
   */
  lemma RunLate(w: World, call: Call, scope: nat)
    requires call.Approve? && Admits(w, call) && Open(w) && Sound(w) && scope == PinnedScope(w)
    requires w.record.approval.Some?
    ensures Deceived(RunCrew(Crew(Starts([call, Revoke]), w), Overtaken(scope, 2, 2)))
  {
    var r := w.record;
    FindsNoGrant(w, scope);
    forall v: World | v.journal.None?
      ensures Run(FindJournal(r), v, Goods(scope, 2)) == Situation(Ended, v.(record := r.(state := Revoked)))
    {
      FindsNoJournal(r, v, scope);
    }
    hide Sound, Open, Admits, Run, Goods;
    Overtake(w, call, scope, 2, 2, FindJournal(r));
  }

  lemma FindsNoGrant(w: World, scope: nat)
    requires w.record.delegation.None? && w.record.approval.Some? && w.grant.None?
    ensures Run(Start(Revoke), w, Goods(scope, 2)) == Situation(FindJournal(w.record), w)
  {
    hide Run;
    var choices := Goods(scope, 2);
    Unfold(Start(Revoke), w, choices);
    Unfold(FindGrant(w.record), w, choices[1..]);
    RunNone(FindJournal(w.record), w, choices[1..][1..]);
  }

  lemma FindsNoJournal(r: Record, v: World, scope: nat)
    requires v.journal.None?
    ensures Run(FindJournal(r), v, Goods(scope, 2)) == Situation(Ended, v.(record := r.(state := Revoked)))
  {
    hide Run;
    var choices := Goods(scope, 2);
    Unfold(FindJournal(r), v, choices);
    EndRevoke(r, v, choices[1..]);
  }

  /**
   * However an approval and a revocation overlap, a revocation that is recorded or has ended has
   * missed no delegation, from exactly those worlds where a grant file exists already or the
   * record is no longer merely invited. A journal does not help: from every other world, one of
   * the two interleavings above ends in a revocation that is false.
   */
  lemma CrossSafeIff(w: World)
    requires Sound(w)
    ensures CrossSafe(w) <==> !Open(w)
  {
    if Open(w) {
      EligibleAdmitted(w);
      var call, scope := Eligible(w), PinnedScope(w);
      var turns := Overtaken(scope, if w.record.approval.None? then 1 else 2, if w.record.approval.None? then 1 else 2);
      if w.record.approval.None? { RunMissed(w, call, scope); } else { RunLate(w, call, scope); }
      var end := RunCrew(Crew(Starts([call, Revoke]), w), turns);
      assert Deceived(end) && !Truthful(end);
    } else {
      hide Sound, Open, RunCrew, Truthful;
      forall call: Call, turns: seq<Turn> | call.Approve?
        ensures Truthful(RunCrew(Crew(Starts([call, Revoke]), w), turns))
      {
        ClosedHarmless(w, [call, Revoke]);
        HarmlessRun(Crew(Starts([call, Revoke]), w), turns);
      }
    }
  }
}
