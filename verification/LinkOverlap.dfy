/** Calls of any number whose steps interleave: nothing locks the link record. */
module LinkOverlap {
  import opened Wrappers
  import opened LinkSaga
  import opened LinkRecovery

  /** Calls in progress, in one world. */
  datatype Crew = Crew(ps: seq<Process>, w: World)

  datatype Turn = Turn(who: nat, choice: Choice)

  function CrewStep(s: Crew, t: Turn): (next: Crew)
    ensures |next.ps| == |s.ps|
  {
    if t.who >= |s.ps| then s
    else
      var next := Step(s.ps[t.who], s.w, t.choice);
      Crew(s.ps[t.who := next.p], next.w)
  }

  function RunCrew(s: Crew, turns: seq<Turn>): Crew
    decreases |turns|
  {
    if turns == [] then s else RunCrew(CrewStep(s, turns[0]), turns[1..])
  }

  function Starts(calls: seq<Call>): (ps: seq<Process>)
    ensures |ps| == |calls| && forall i :: 0 <= i < |ps| ==> ps[i] == Start(calls[i])
  {
    seq(|calls|, i requires 0 <= i < |calls| => Start(calls[i]))
  }

  function Turns(who: nat, choices: seq<Choice>): (turns: seq<Turn>)
    ensures |turns| == |choices| && forall i :: 0 <= i < |turns| ==> turns[i] == Turn(who, choices[i])
  {
    seq(|choices|, i requires 0 <= i < |choices| => Turn(who, choices[i]))
  }

  lemma {:induction false} RunCrewAppend(s: Crew, t: seq<Turn>, u: seq<Turn>)
    ensures RunCrew(s, t + u) == RunCrew(RunCrew(s, t), u)
    decreases |t|
  {
    hide CrewStep;
    if t == [] {
      assert t + u == u;
    } else {
      assert (t + u)[1..] == t[1..] + u;
      RunCrewAppend(CrewStep(s, t[0]), t[1..], u);
    }
  }

  /** A stretch of turns for one call is that call's own run. */
  lemma {:induction false} RunAlone(s: Crew, who: nat, choices: seq<Choice>)
    requires who < |s.ps|
    ensures var own := Run(s.ps[who], s.w, choices);
            RunCrew(s, Turns(who, choices)) == Crew(s.ps[who := own.p], own.w)
    decreases |choices|
  {
    hide Step;
    if choices == [] {
      assert s.ps[who := s.ps[who]] == s.ps;
    } else {
      assert Turns(who, choices)[1..] == Turns(who, choices[1..]);
      var next := CrewStep(s, Turn(who, choices[0]));
      RunAlone(next, who, choices[1..]);
      if Final(s.ps[who]) { FinalRests(s.ps[who], s.w, choices[0]); RunFinal(s.ps[who], s.w, choices[1..]); }
      var own := Run(s.ps[who], s.w, choices);
      assert next.ps[who := own.p] == s.ps[who := own.p];
    }
  }

  /** The same for two calls. */
  lemma AloneOfTwo(p: Process, q: Process, w: World, choices: seq<Choice>)
    ensures RunCrew(Crew([p, q], w), Turns(0, choices)) == Crew([Run(p, w, choices).p, q], Run(p, w, choices).w)
    ensures RunCrew(Crew([p, q], w), Turns(1, choices)) == Crew([p, Run(q, w, choices).p], Run(q, w, choices).w)
  {
    hide Run, RunCrew, Turns;
    RunAlone(Crew([p, q], w), 0, choices);
    RunAlone(Crew([p, q], w), 1, choices);
    var x, y := Run(p, w, choices).p, Run(q, w, choices).p;
    assert [p, q][0 := x] == [x, q] && [p, q][1 := y] == [p, y];
  }

  /** Stretches of turns, one after the other. */
  lemma RunThree(s: Crew, t: seq<Turn>, u: seq<Turn>, v: seq<Turn>)
    ensures RunCrew(s, t + u + v) == RunCrew(RunCrew(RunCrew(s, t), u), v)
  {
    hide RunCrew;
    RunCrewAppend(s, t, u);
    RunCrewAppend(s, t + u, v);
  }

  lemma FinalRests(p: Process, w: World, c: Choice)
    requires Final(p)
    ensures Step(p, w, c) == Situation(p, w)
  {
  }

  /** The guard that decides: nothing issued is on disk and the record may still be approved. */
  predicate Open(w: World) {
    w.record.state == Invited && w.grant.None?
  }

  // ---------- while the guard is open, two overlapping approvals can issue twice ----------

  /** An approval that this world admits. */
  function Eligible(w: World): Call
    requires w.record.approval.Some? ==> "@" <= w.record.approval.value.request.grantor
  {
    if w.record.approval.Some? then Retry(w)
    else Approve(w.record.invite, Request(w.service, "@" + w.record.owner, 0, 0, 0), Some(1), w.record.owner)
  }

  lemma EligibleAdmitted(w: World)
    requires Sound(w) && w.record.state != Revoked
    ensures w.record.approval.Some? ==> "@" <= w.record.approval.value.request.grantor
    ensures Eligible(w).Approve? && Admits(w, Eligible(w))
  {
    if w.record.approval.Some? { RetryAdmitted(w); }
  }

  function Good(scope: nat): Choice {
    Choice(Ok, 0, scope, Grant(0, 0, "", 0, 0))
  }

  function Goods(scope: nat, n: nat): (choices: seq<Choice>)
    ensures |choices| == n && Favourable(choices, scope) && forall i :: 0 <= i < n ==> choices[i] == Good(scope)
  {
    seq(n, i => Good(scope))
  }

  /** Four turns bring an admitted approval past the check that no grant exists yet. */
  lemma PassCheck(w: World, call: Call, scope: nat)
    requires call.Approve? && Admits(w, call) && Open(w)
    ensures var r := Pinned(w.record, Approval(call.request, ChosenMinutes(w.record, call.minutes)), Good(scope));
            Run(Start(call), w, Goods(scope, 4)) == Situation(Resolve(r), w.(record := r))
  {
    hide Admits, Favourable, ChosenMinutes;
    BeginApproval(w, call, Goods(scope, 4), scope);
  }

  function JournalId(w: World): nat {
    if w.journal.Some? then w.journal.value.requestId else w.drawn
  }

  /** The world after an issuance has run from its resolution to the unlinked journal. */
  function IssuedOnce(w: World, made: Grant): World {
    var id := JournalId(w);
    var after := Commit(w.(drawn := if w.journal.Some? then w.drawn else w.drawn + 1), id, made);
    after.(grant := Some(after.issued[id]), journal := None)
  }

  /** The intention is saved, or found saved, under one request id. */
  lemma Intend(r: Record, w: World, choices: seq<Choice>, scope: nat)
    requires Favourable(choices, scope) && |choices| >= 3 && r.approval.Some?
    requires w.journal.Some? ==> w.journal.value.arguments == Arguments(r.approval.value.request, scope, r.approval.value.minutes)
    ensures var a := Arguments(r.approval.value.request, scope, r.approval.value.minutes);
            Run(Resolve(r), w, choices) == Run(Create(r, a, JournalId(w)), Intended(w, a), choices[3..])
  {
    hide Favourable, Run;
    var a := Arguments(r.approval.value.request, scope, r.approval.value.minutes);
    Favours(choices, scope, 0); Favours(choices, scope, 1); Favours(choices, scope, 2);
    Unfold(Resolve(r), w, choices);
    Unfold(CheckJournal(r, a), w, choices[1..]);
    Unfold(if w.journal.Some? then ReadJournal(r, a) else WriteJournal(r, a), w, choices[2..]);
  }

  function Intended(w: World, a: Arguments): World {
    if w.journal.Some? then w else w.(journal := Some(Journal(a, w.drawn)), drawn := w.drawn + 1)
  }

  lemma CreateAndKeep(r: Record, a: Arguments, id: nat, w: World, choices: seq<Choice>, scope: nat)
    requires Favourable(choices, scope) && |choices| == 3 && w.journal.Some?
    ensures var after := Commit(w, id, choices[0].grant);
            Run(Create(r, a, id), w, choices) == Situation(LoadGrant(r), after.(grant := Some(after.issued[id]), journal := None))
  {
    hide Favourable, Run, Commit;
    var after := Commit(w, id, choices[0].grant);
    Favours(choices, scope, 0); Favours(choices, scope, 1); Favours(choices, scope, 2);
    Committed(w, id, choices[0].grant);
    var g := after.issued[id];
    Unfold(Create(r, a, id), w, choices);
    Unfold(SaveGrant(r, g), after, choices[1..]);
    Unfold(UnlinkJournal(r), after.(grant := Some(g)), choices[2..]);
    RunNone(LoadGrant(r), after.(grant := Some(g), journal := None), choices[3..]);
  }

  lemma Committed(w: World, id: nat, made: Grant)
    ensures id in Commit(w, id, made).issued && Commit(w, id, made).journal == w.journal
  {
  }

  lemma IssueOnce(r: Record, w: World, scope: nat)
    requires r.approval.Some?
    requires w.journal.Some? ==> w.journal.value.arguments == Arguments(r.approval.value.request, scope, r.approval.value.minutes)
    ensures Run(Resolve(r), w, Goods(scope, 6)) == Situation(LoadGrant(r), IssuedOnce(w, Good(scope).grant))
  {
    hide Favourable, Run;
    var choices := Goods(scope, 6);
    var a := Arguments(r.approval.value.request, scope, r.approval.value.minutes);
    Intend(r, w, choices, scope);
    Favours(choices, scope, 3);
    CreateAndKeep(r, a, JournalId(w), Intended(w, a), choices[3..], scope);
  }

  lemma RunNone(p: Process, w: World, choices: seq<Choice>)
    requires choices == []
    ensures Run(p, w, choices) == Situation(p, w)
  {
  }

  /** With the journal gone, a second issuance draws and commits a second request id. */
  lemma IssueAgain(r: Record, w: World, scope: nat)
    requires r.approval.Some? && w.journal.None? && w.drawn !in w.issued
    ensures var after := Run(Resolve(r), w, Goods(scope, 4)).w;
            after.issued == w.issued[w.drawn := Good(scope).grant]
  {
    hide Favourable, Run;
    var c, choices := Good(scope), Goods(scope, 4);
    var a := Arguments(r.approval.value.request, scope, r.approval.value.minutes);
    Intend(r, w, choices, scope);
    var v := Intended(w, a);
    Favours(choices, scope, 3);
    Unfold(Create(r, a, w.drawn), v, choices[3..]);
    RunNone(SaveGrant(r, c.grant), Commit(v, w.drawn, c.grant), choices[3..][1..]);
  }

  /** Both calls pass the grant check, then one issues completely before the other starts to. */
  function Clash(scope: nat): seq<Turn> {
    Turns(0, Goods(scope, 4)) + Turns(1, Goods(scope, 4)) + Turns(0, Goods(scope, 6)) + Turns(1, Goods(scope, 4))
  }

  lemma RunClash(w: World, call: Call, scope: nat)
    requires call.Approve? && Admits(w, call) && Open(w) && Sound(w) && scope == PinnedScope(w)
    ensures !AtMostOne(RunCrew(Crew(Starts([call, call]), w), Clash(scope)).w)
  {
    var a := Approval(call.request, ChosenMinutes(w.record, call.minutes));
    var r := Pinned(w.record, a, Good(scope));
    var w1 := w.(record := r);
    ClashFacts(w, call, scope);
    hide Sound, Open, Admits, ChosenMinutes, Run, RunCrew, Turns, Goods, AtMostOne, Good, IssuedOnce, Favourable, Pinned;
    PassCheck(w, call, scope);
    PassCheck(w1, call, scope);
    var s0 := Crew([Start(call), Start(call)], w);
    assert Starts([call, call]) == s0.ps;
    AloneOfTwo(Start(call), Start(call), w, Goods(scope, 4));
    AloneOfTwo(Resolve(r), Start(call), w1, Goods(scope, 4));
    IssueOnce(r, w1, scope);
    var w2 := IssuedOnce(w1, Good(scope).grant);
    AloneOfTwo(Resolve(r), Resolve(r), w1, Goods(scope, 6));
    IssueAgain(r, w2, scope);
    AloneOfTwo(LoadGrant(r), Resolve(r), w2, Goods(scope, 4));
    var t1, t2, t3, t4 := Turns(0, Goods(scope, 4)), Turns(1, Goods(scope, 4)), Turns(0, Goods(scope, 6)), Turns(1, Goods(scope, 4));
    RunThree(s0, t1, t2, t3);
    RunCrewAppend(s0, t1 + t2 + t3, t4);
    TwoIssued(RunCrew(s0, Clash(scope)).w, JournalId(w1), w2.drawn);
  }

  lemma TwoIssued(w: World, a: nat, b: nat)
    requires a in w.issued && b in w.issued && a != b
    ensures !AtMostOne(w)
  {
  }

  lemma ClashFacts(w: World, call: Call, scope: nat)
    requires call.Approve? && Admits(w, call) && Open(w) && Sound(w) && scope == PinnedScope(w)
    ensures var a := Approval(call.request, ChosenMinutes(w.record, call.minutes));
            var r := Pinned(w.record, a, Good(scope));
            var w1 := w.(record := r);
            var w2 := IssuedOnce(w1, Good(scope).grant);
            && Admits(w1, call) && Open(w1) && r.approval == Some(a)
            && Pinned(r, Approval(call.request, ChosenMinutes(r, call.minutes)), Good(scope)) == r
            && (w1.journal.Some? ==> w1.journal.value.arguments == Arguments(a.request, scope, a.minutes))
            && w2.journal.None? && w2.drawn !in w2.issued && JournalId(w1) in w2.issued && JournalId(w1) != w2.drawn
  {
  }

  // ---------- once it is closed, no interleaving does any harm ----------

  /** What a recorded revocation claims. */
  predicate Honest(w: World) {
    w.record.state == Revoked ==> AllRevoked(w)
  }

  /** Neither the record nor a revocation that ended claims that more is revoked than is. */
  predicate Truthful(s: Crew) {
    Honest(s.w) && forall p <- s.ps :: p.Ended? ==> AllRevoked(s.w)
  }

  /** A record that names no other delegation than the one of the grant file. */
  predicate Names(r: Record, g: Grant) {
    r.approval.Some? && (r.delegation.Some? ==> r.delegation.value == g.delegation && r.state != Invited)
  }

  /** The grant file is there, and whatever was issued is its delegation. */
  predicate Granted(w: World) {
    && w.grant.Some? && Names(w.record, w.grant.value) && Honest(w)
    && forall id <- w.issued :: w.issued[id].delegation == w.grant.value.delegation
  }

  /** Where a call may stand that was started with the grant file there. */
  predicate AfterGrant(p: Process, w: World)
    requires w.grant.Some?
  {
    var g := w.grant.value;
    match p
    case Start(_) | Access(_) | Failed => true
    case Mailboxes(r, _) => r.delegation.None? && r.state == Invited
    case SaveApproval(r) => Names(r, g) && r.state == Invited
    case CheckGrant(_) | LoadGrant(_) | FindGrant(_) | ReadGrant(_) => Names(p.r, g)
    case SaveIssued(_, _) | SendTask(_, _) | SaveApproved(_, _) | RevokeSaveIssued(_, _) => Names(p.r, g) && p.grant == g
    case RevokeRemote(r) => Names(r, g) && r.delegation.Some?
    case Archive(_) | SaveRevoked(_) => Names(p.r, g) && AllRevoked(w)
    case Ended => AllRevoked(w)
    case _ => false
  }

  /** The revocation was recorded before anything was issued, so no approval is admitted. */
  predicate Shut(w: World) {
    && w.record.state == Revoked && w.record.delegation.None? && w.grant.None? && AllRevoked(w)
  }

  predicate AfterShut(p: Process) {
    match p
    case Start(_) | Failed | Ended => true
    case FindGrant(_) | FindJournal(_) | SaveRevoked(_) => p.r.state == Revoked && p.r.delegation.None?
    case _ => false
  }

  /** A call that can neither issue anything nor claim a revocation falsely. */
  predicate Harmless(p: Process, w: World) {
    (Granted(w) && AfterGrant(p, w)) || (Shut(w) && AfterShut(p))
  }

  /** A step that issues nothing, keeps the grant file and leaves the world closed as it was. */
  predicate Mild(w: World, next: World) {
    && next.issued == w.issued && next.grant == w.grant && w.revoked <= next.revoked
    && (Granted(w) ==> Granted(next)) && (Shut(w) ==> Shut(next))
  }

  lemma GrantedStep(p: Process, w: World, c: Choice)
    requires Granted(w) && AfterGrant(p, w)
    ensures var next := Step(p, w, c); Mild(w, next.w) && AfterGrant(next.p, next.w)
  {
    hide Admits, ChosenMinutes, GrantMatches, Commit;
  }

  lemma ShutStep(p: Process, w: World, c: Choice)
    requires Shut(w) && AfterShut(p)
    ensures var next := Step(p, w, c); Mild(w, next.w) && AfterShut(next.p)
  {
  }

  /** A mild step of one call leaves the others harmless. */
  lemma StaysHarmless(q: Process, w: World, next: World)
    requires Harmless(q, w) && Mild(w, next)
    ensures Harmless(q, next)
  {
  }

  lemma HarmlessStep(p: Process, w: World, c: Choice)
    requires Harmless(p, w)
    ensures var next := Step(p, w, c); Mild(w, next.w) && Harmless(next.p, next.w)
  {
    hide Step, AfterGrant, AfterShut, Mild;
    if Granted(w) && AfterGrant(p, w) {
      GrantedStep(p, w, c);
      MildKeeps(w, Step(p, w, c).w);
    } else {
      ShutStep(p, w, c);
      MildKeeps(w, Step(p, w, c).w);
    }
  }

  lemma MildKeeps(w: World, next: World)
    requires Mild(w, next)
    ensures (Granted(w) ==> Granted(next)) && (Shut(w) ==> Shut(next)) && next.issued == w.issued
  {
  }

  /** Every call of the crew is harmless, and the world is closed even without any. */
  predicate AllHarmless(s: Crew) {
    (Granted(s.w) || Shut(s.w)) && forall p <- s.ps :: Harmless(p, s.w)
  }

  lemma CrewHarmless(s: Crew, t: Turn)
    requires AllHarmless(s)
    ensures AllHarmless(CrewStep(s, t)) && CrewStep(s, t).w.issued == s.w.issued
  {
    hide Step, Harmless, Mild, Granted, Shut;
    if t.who < |s.ps| {
      assert s.ps[t.who] in s.ps;
      HarmlessStep(s.ps[t.who], s.w, t.choice);
      var next := CrewStep(s, t);
      MildKeeps(s.w, next.w);
      forall p | p in next.ps ensures Harmless(p, next.w) {
        var i :| 0 <= i < |next.ps| && next.ps[i] == p;
        if i != t.who {
          assert p == s.ps[i];
          StaysHarmless(p, s.w, next.w);
        }
      }
    }
  }

  /** No interleaving of harmless calls issues anything or claims too much. */
  lemma {:induction false} HarmlessRun(s: Crew, turns: seq<Turn>)
    requires AllHarmless(s)
    ensures RunCrew(s, turns).w.issued == s.w.issued && Truthful(RunCrew(s, turns))
    decreases |turns|
  {
    hide CrewStep, AllHarmless, Truthful;
    if turns == [] {
      HarmlessTruthful(s);
    } else {
      CrewHarmless(s, turns[0]);
      HarmlessRun(CrewStep(s, turns[0]), turns[1..]);
    }
  }

  lemma HarmlessTruthful(s: Crew)
    requires AllHarmless(s)
    ensures Truthful(s)
  {
    forall p | p in s.ps && p.Ended? ensures AllRevoked(s.w) {
      assert Harmless(p, s.w);
    }
  }

  lemma ClosedHarmless(w: World, calls: seq<Call>)
    requires Sound(w) && !Open(w)
    ensures AllHarmless(Crew(Starts(calls), w))
  {
    if w.grant.Some? {
      assert Granted(w);
    } else {
      assert Shut(w);
    }
  }

  /** However many approvals and revocations overlap: one delegation, and no revocation claimed falsely. */
  ghost predicate OverlapSafe(w: World) {
    forall calls: seq<Call>, turns: seq<Turn> ::
      var end := RunCrew(Crew(Starts(calls), w), turns);
      AtMostOne(end.w) && Truthful(end)
  }

  /**
   * Overlapping calls, any number of them, keep to one delegation and to truthful revocations
   * from exactly those worlds where a grant file already exists or the record is no longer
   * merely invited. From every other world, however far an earlier attempt got, some
   * interleaving of two admitted approvals commits two.
   */
  lemma OverlapSafeIff(w: World)
    requires Sound(w)
    ensures OverlapSafe(w) <==> !Open(w)
  {
    if Open(w) {
      EligibleAdmitted(w);
      var call := Eligible(w);
      RunClash(w, call, PinnedScope(w));
      var end := RunCrew(Crew(Starts([call, call]), w), Clash(PinnedScope(w)));
      assert !AtMostOne(end.w);
    } else {
      hide AtMostOne, Truthful, Open;
      forall calls: seq<Call>, turns: seq<Turn>
        ensures var end := RunCrew(Crew(Starts(calls), w), turns); AtMostOne(end.w) && Truthful(end)
      {
        ClosedHarmless(w, calls);
        HarmlessRun(Crew(Starts(calls), w), turns);
        SameIssued(w, RunCrew(Crew(Starts(calls), w), turns).w);
      }
    }
  }

  lemma SameIssued(w: World, v: World)
    requires Sound(w) && v.issued == w.issued
    ensures AtMostOne(v)
  {
  }
}
