/** What a retry recovers, and when a revocation can be recorded. */
module LinkRecovery {
  import opened Wrappers
  import opened LinkSaga

  // ---------- a retry with the same code recovers ----------

  /** Replies that all succeed, with the granted paths resolving to `scope`. */
  predicate Favourable(choices: seq<Choice>, scope: nat) {
    forall c <- choices :: c.reply == Ok && c.scope == scope
  }

  lemma Favours(choices: seq<Choice>, scope: nat, k: nat)
    requires Favourable(choices, scope) && k < |choices|
    ensures choices[k].reply == Ok && choices[k].scope == scope
    ensures Favourable(choices[k..], scope) && Favourable(choices[k + 1..], scope) && choices[k..][1..] == choices[k + 1..]
  {
    assert choices[k] in choices;
    assert forall c <- choices[k..] :: c in choices;
  }

  /** From a loaded grant that matches, favourable replies finish the approval. */
  lemma FinishApproval(r: Record, w: World, choices: seq<Choice>, scope: nat)
    requires Favourable(choices, scope) && |choices| >= 5
    requires w.record == r && r.state == Invited && w.grant.Some? && GrantMatches(w, r, w.grant.value)
    ensures var g := w.grant.value;
            Run(LoadGrant(r), w, choices) == Situation(Access(g), w.(record := WithGrant(r, g).(state := Approved)))
  {
    hide GrantMatches, WithGrant, Favourable, Run;
    var g := w.grant.value;
    var next := w.(record := WithGrant(r, g));
    Favours(choices, scope, 0); Favours(choices, scope, 1); Favours(choices, scope, 2);
    Favours(choices, scope, 3);
    Unfold(LoadGrant(r), w, choices);
    Unfold(SaveIssued(r, g), w, choices[1..]);
    Unfold(SendTask(WithGrant(r, g), g), next, choices[2..]);
    Unfold(SaveApproved(WithGrant(r, g), g), next, choices[3..]);
    RunFinal(Access(g), next.(record := WithGrant(r, g).(state := Approved)), choices[4..]);
  }

  /** From the issuance section on, the journal's request id replays the committed grant. */
  lemma ReplayIssuance(r: Record, w: World, choices: seq<Choice>, scope: nat)
    requires Favourable(choices, scope) && |choices| >= 6
    requires w.grant.None? && r.approval.Some? && w.journal.Some? && w.journal.value.requestId in w.issued
    requires w.journal.value.arguments == Arguments(r.approval.value.request, scope, r.approval.value.minutes)
    ensures var g := w.issued[w.journal.value.requestId];
            Run(Resolve(r), w, choices) == Run(LoadGrant(r), w.(grant := Some(g), journal := None), choices[6..])
  {
    hide Favourable, Run;
    var j := w.journal.value;
    var g := w.issued[j.requestId];
    Favours(choices, scope, 0); Favours(choices, scope, 1); Favours(choices, scope, 2);
    Favours(choices, scope, 3); Favours(choices, scope, 4); Favours(choices, scope, 5);
    Unfold(Resolve(r), w, choices);
    Unfold(CheckJournal(r, j.arguments), w, choices[1..]);
    Unfold(ReadJournal(r, j.arguments), w, choices[2..]);
    Unfold(Create(r, j.arguments, j.requestId), w, choices[3..]);
    Unfold(SaveGrant(r, g), w, choices[4..]);
    Unfold(UnlinkJournal(r), w.(grant := Some(g)), choices[5..]);
  }

  /** The record an approval saves before it issues anything. */
  function Pinned(r: Record, approval: Approval, c: Choice): Record {
    r.(tails := if r.tails.Some? then r.tails else Some(c.tails), approval := Some(approval))
  }

  /** Starting an admitted approval of an invited record reaches the grant check. */
  lemma BeginApproval(w: World, call: Call, choices: seq<Choice>, scope: nat)
    requires call.Approve? && Admits(w, call) && w.record.state == Invited
    requires Favourable(choices, scope) && |choices| >= 4
    ensures var r := Pinned(w.record, Approval(call.request, ChosenMinutes(w.record, call.minutes)), choices[1]);
            Run(Start(call), w, choices) ==
            Run(if w.grant.Some? then LoadGrant(r) else Resolve(r), w.(record := r), choices[4..])
  {
    hide Favourable, Run, Admits, ChosenMinutes;
    var a := Approval(call.request, ChosenMinutes(w.record, call.minutes));
    var r := Pinned(w.record, a, choices[1]);
    Favours(choices, scope, 0); Favours(choices, scope, 1); Favours(choices, scope, 2); Favours(choices, scope, 3);
    Unfold(Start(call), w, choices);
    Unfold(Mailboxes(w.record, a), w, choices[1..]);
    Unfold(SaveApproval(r), w, choices[2..]);
    Unfold(CheckGrant(r), w.(record := r), choices[3..]);
  }

  /** The approval that repeats the pinned request, as a retry by the same owner does. */
  function Retry(w: World): Call
    requires w.record.approval.Some? && "@" <= w.record.approval.value.request.grantor
  {
    var request := w.record.approval.value.request;
    Approve(w.record.invite, request, None, request.grantor[1..])
  }

  /** The scope under which a retry repeats the journal's intention. */
  function PinnedScope(w: World): nat {
    if w.journal.Some? then w.journal.value.arguments.scope else 0
  }

  /** Another scope is another intention: the saved request id is not used for it, and all stays. */
  lemma OtherIntention(r: Record, w: World, choices: seq<Choice>, scope: nat)
    requires Favourable(choices, scope) && |choices| >= 4
    requires w.journal.Some? && scope != w.journal.value.arguments.scope
    ensures Run(Resolve(r), w, choices) == Situation(Failed, w)
  {
    hide Favourable, Run;
    Favours(choices, scope, 0); Favours(choices, scope, 1); Favours(choices, scope, 2); Favours(choices, scope, 3);
    Unfold(Resolve(r), w, choices);
    if r.approval.None? {
      Unfold(Recover(r), w, choices[1..]);
      RunFinal(Failed, w, choices[2..]);
    } else {
      var a := Arguments(r.approval.value.request, scope, r.approval.value.minutes);
      Unfold(CheckJournal(r, a), w, choices[1..]);
      Unfold(ReadJournal(r, a), w, choices[2..]);
      Unfold(Recover(r), w, choices[3..]);
      RunFinal(Failed, w, choices[4..]);
    }
  }

  lemma RetryAdmitted(w: World)
    requires Sound(w) && w.record.state != Revoked && w.record.approval.Some?
    ensures "@" <= w.record.approval.value.request.grantor && Admits(w, Retry(w))
    ensures Approval(Retry(w).request, ChosenMinutes(w.record, None)) == w.record.approval.value
  {
    var grantor := w.record.approval.value.request.grantor;
    assert "@" <= grantor;
    assert grantor == "@" + grantor[1..];
  }

  /** The grant is on disk already, or the paths resolve to what the journal's request id was drawn for. */
  predicate Reachable(w: World, scope: nat) {
    w.grant.Some? || scope == PinnedScope(w)
  }

  /**
   * A committed delegation is not lost: retrying with the same join code and favourable replies
   * ends with that very grant, approved, with nothing more committed, exactly when the grant
   * passes the checks made on a grant file and, as long as that file is missing, the granted
   * paths still resolve to what they resolved to when the request id was saved. Otherwise the
   * retry fails, and the committed delegation stays as it was.
   */
  lemma RetryRecovers(w: World, id: nat, choices: seq<Choice>, scope: nat)
    requires Sound(w) && w.record.state == Invited && id in w.issued
    requires Favourable(choices, scope) && |choices| >= 15
    ensures w.record.approval.Some? && "@" <= w.record.approval.value.request.grantor
    ensures var end := Run(Start(Retry(w)), w, choices);
            && end.w.issued == w.issued && Sound(end.w)
            && (end.p == Access(w.issued[id]) <==> GrantMatches(w, w.record, w.issued[id]) && Reachable(w, scope))
            && (end.p.Access? ==> end.p == Access(w.issued[id])
                                  && end.w.record.state == Approved && end.w.record.delegation == Some(w.issued[id].delegation))
            && (end.p.Access? || end.p == Failed)
            && (!Reachable(w, scope) ==> end.w.grant == w.grant && end.w.journal == w.journal)
  {
    CommittedIsPinned(w, id);
    RetryAdmitted(w);
    hide Sound, Favourable, Run, Admits, ChosenMinutes;
    RunKeeps(Start(Retry(w)), w, choices);
    BeginApproval(w, Retry(w), choices, scope);
    var r := Pinned(w.record, w.record.approval.value, choices[1]);
    var v := w.(record := r);
    Favours(choices, scope, 3);
    if w.grant.Some? {
      EndRetry(v, choices[4..], scope);
    } else if scope != PinnedScope(w) {
      OtherIntention(r, v, choices[4..], scope);
    } else {
      ReplayIssuance(r, v, choices[4..], scope);
      Favours(choices, scope, 9);
      assert choices[4..][6..] == choices[10..];
      EndRetry(v.(grant := Some(w.issued[id]), journal := None), choices[10..], scope);
    }
  }

  /** Where the retry fails, a revocation is refused as well: the delegation stands until the paths resolve as before. */
  lemma NeitherWay(w: World, id: nat, choices: seq<Choice>, more: seq<Choice>, scope: nat)
    requires Sound(w) && w.record.state == Invited && id in w.issued
    requires Favourable(choices, scope) && |choices| >= 15 && Favourable(more, scope) && |more| >= 8
    ensures w.record.approval.Some? && "@" <= w.record.approval.value.request.grantor
    ensures Run(Start(Retry(w)), w, choices).p == Failed ==> Run(Start(Revoke), w, more) == Situation(Failed, w)
  {
    CommittedIsPinned(w, id);
    RetryRecovers(w, id, choices, scope);
    RevokeIff(w, more, scope);
    NotDelegated(w);
    hide Sound, Favourable, Run, GrantMatches;
  }

  lemma NotDelegated(w: World)
    requires Sound(w) && w.record.state == Invited
    ensures w.record.delegation.None?
  {
  }

  lemma CommittedIsPinned(w: World, id: nat)
    requires Sound(w) && id in w.issued
    ensures w.record.approval.Some? && "@" <= w.record.approval.value.request.grantor
    ensures w.grant == Some(w.issued[id]) || (w.grant.None? && w.journal.Some? && w.journal.value.requestId == id)
    ensures w.journal.Some? ==> Intends(w.journal.value.arguments, w.record.approval.value)
  {
  }

  lemma EndRetry(w: World, choices: seq<Choice>, scope: nat)
    requires Favourable(choices, scope) && |choices| >= 5 && w.record.state == Invited && w.grant.Some?
    ensures var end := Run(LoadGrant(w.record), w, choices);
            var g := w.grant.value;
            && end.w.issued == w.issued
            && (GrantMatches(w, w.record, g) ==>
                  end.p == Access(g) && end.w.record.state == Approved && end.w.record.delegation == Some(g.delegation))
            && (!GrantMatches(w, w.record, g) ==> end.p == Failed)
  {
    hide Favourable, GrantMatches, Run;
    if GrantMatches(w, w.record, w.grant.value) {
      FinishApproval(w.record, w, choices, scope);
    } else {
      Unfold(LoadGrant(w.record), w, choices);
      RunFinal(Failed, w, choices[1..]);
    }
  }

  // ---------- when revocation can be recorded ----------

  /** No issuance is uncertain, and an unrecorded grant file passes its checks. */
  predicate Revocable(w: World) {
    var r := w.record;
    r.delegation.Some? || r.approval.None?
    || (w.grant.Some? && GrantMatches(w, r, w.grant.value)) || (w.grant.None? && w.journal.None?)
  }

  /** With favourable replies a revocation is recorded exactly when it may claim the authority has ended. */
  lemma RevokeIff(w: World, choices: seq<Choice>, scope: nat)
    requires Sound(w) && Favourable(choices, scope) && |choices| >= 8
    ensures var end := Run(Start(Revoke), w, choices);
            && (Revocable(w) <==> end.p == Ended)
            && (Revocable(w) ==> end.w.record.state == Revoked && AllRevoked(end.w))
            && (!Revocable(w) ==> end.p == Failed && end.w == w)
  {
    hide Favourable, GrantMatches, Run, WithGrant, Sound, AllRevoked;
    RunKeeps(Start(Revoke), w, choices);
    var r := w.record;
    Favours(choices, scope, 0); Favours(choices, scope, 1); Favours(choices, scope, 2); Favours(choices, scope, 3);
    Unfold(Start(Revoke), w, choices);
    if r.delegation.Some? {
      FinishRevoke(r, w, choices[1..], scope);
    } else if r.approval.None? {
      EndRevoke(r, w, choices[1..]);
    } else {
      if w.grant.Some? { RevokeGranted(r, w, choices[1..], scope); } else { RevokeUngranted(r, w, choices[1..], scope); }
    }
    RevokedAll(Run(Start(Revoke), w, choices).w);
  }

  lemma EndRevoke(r: Record, w: World, choices: seq<Choice>)
    requires choices != []
    ensures Run(SaveRevoked(r), w, choices) == Situation(Ended, w.(record := r.(state := Revoked)))
  {
    hide Run;
    Unfold(SaveRevoked(r), w, choices);
    RunFinal(Ended, w.(record := r.(state := Revoked)), choices[1..]);
  }

  /** A revocation that finds a grant file, with nobody else at work. */
  lemma RevokeGranted(r: Record, w: World, choices: seq<Choice>, scope: nat)
    requires Favourable(choices, scope) && |choices| >= 7 && w.grant.Some?
    ensures var g := w.grant.value;
            Run(FindGrant(r), w, choices) ==
            if GrantMatches(w, r, g)
            then Situation(Ended, w.(record := WithGrant(r, g).(state := Revoked), revoked := w.revoked + {g.delegation}))
            else Situation(Failed, w)
  {
    hide Favourable, GrantMatches, Run, WithGrant;
    var g := w.grant.value;
    Favours(choices, scope, 0); Favours(choices, scope, 1); Favours(choices, scope, 2);
    Unfold(FindGrant(r), w, choices);
    Unfold(ReadGrant(r), w, choices[1..]);
    if GrantMatches(w, r, g) {
      RevokeFound(r, g, w, choices[2..], scope);
    } else {
      RunFinal(Failed, w, choices[2..]);
    }
  }

  lemma RevokeFound(r: Record, g: Grant, w: World, choices: seq<Choice>, scope: nat)
    requires Favourable(choices, scope) && |choices| >= 5
    ensures Run(RevokeSaveIssued(r, g), w, choices) ==
            Situation(Ended, w.(record := WithGrant(r, g).(state := Revoked), revoked := w.revoked + {g.delegation}))
  {
    hide Favourable, Run, WithGrant;
    var s := WithGrant(r, g);
    Favours(choices, scope, 0);
    Unfold(RevokeSaveIssued(r, g), w, choices);
    HasDelegation(r, g);
    FinishRevoke(s, w.(record := s), choices[1..], scope);
  }

  /** One that finds none looks for the journal. */
  lemma RevokeUngranted(r: Record, w: World, choices: seq<Choice>, scope: nat)
    requires Favourable(choices, scope) && |choices| >= 3 && w.grant.None?
    ensures Run(FindGrant(r), w, choices) ==
            if w.journal.Some? then Situation(Failed, w) else Situation(Ended, w.(record := r.(state := Revoked)))
  {
    hide Favourable, Run;
    Unfold(FindGrant(r), w, choices);
    Unfold(FindJournal(r), w, choices[1..]);
    if w.journal.Some? {
      RunFinal(Failed, w, choices[2..]);
    } else {
      EndRevoke(r, w, choices[2..]);
    }
  }

  lemma HasDelegation(r: Record, g: Grant)
    ensures WithGrant(r, g).delegation == Some(g.delegation)
  {
  }

  lemma RevokedAll(w: World)
    requires Sound(w)
    ensures w.record.state == Revoked ==> AllRevoked(w)
  {
  }

  lemma RevokeSteps(r: Record, w: World, c: Choice)
    requires r.delegation.Some? && c.reply == Ok
    ensures Step(RevokeRemote(r), w, c) == Situation(Archive(r), w.(revoked := w.revoked + {r.delegation.value}))
    ensures Step(Archive(r), w, c) == Situation(SaveRevoked(r), w)
    ensures Step(SaveRevoked(r), w, c) == Situation(Ended, w.(record := r.(state := Revoked)))
  {
  }

  lemma FinishRevoke(r: Record, w: World, choices: seq<Choice>, scope: nat)
    requires Favourable(choices, scope) && |choices| >= 4 && r.delegation.Some?
    ensures Run(RevokeRemote(r), w, choices) ==
            Situation(Ended, w.(record := r.(state := Revoked), revoked := w.revoked + {r.delegation.value}))
  {
    hide Favourable, Run, Step;
    Favours(choices, scope, 0); Favours(choices, scope, 1); Favours(choices, scope, 2);
    RevokeSteps(r, w, choices[0]);
    RevokeSteps(r, w.(revoked := w.revoked + {r.delegation.value}), choices[1]);
    RevokeSteps(r, w.(revoked := w.revoked + {r.delegation.value}), choices[2]);
    var done := w.(revoked := w.revoked + {r.delegation.value});
    Unfold(RevokeRemote(r), w, choices);
    Unfold(Archive(r), done, choices[1..]);
    Unfold(SaveRevoked(r), done, choices[2..]);
    RunFinal(Ended, done.(record := r.(state := Revoked)), choices[3..]);
  }
}
