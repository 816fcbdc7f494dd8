/**
 * What approving and revoking mean for the owner, in plain terms: which join codes are refused,
 * which grant is handed out, what a revocation demands, and what never changes once it is bound.
 */
module LinkTerms {
  import opened Wrappers
  import opened LinkSaga
  import opened LinkRecovery

  // ---------- refusals ----------

  /**
   * A join code is refused before anything is touched exactly when it is for another invitation,
   * the link is revoked, it names another grantor or service, the minutes (the given ones, else
   * the pinned ones, else the invitation's) are not between 1 and 1440, or another request or
   * other minutes are pinned. Otherwise the first step goes on, with the world as it was.
   */
  lemma RefusedIff(w: World, call: Call, choices: seq<Choice>)
    requires call.Approve? && choices != []
    ensures var r := w.record;
            var minutes := if call.minutes.Some? then call.minutes.value
                           else if r.approval.Some? then r.approval.value.minutes else r.minutes;
            var refused := || call.invite != r.invite || r.state == Revoked
                           || call.request.grantor != "@" + call.handle || call.request.service != w.service
                           || minutes < 1 || minutes > 1440
                           || (r.approval.Some? && (r.approval.value.request != call.request || r.approval.value.minutes != minutes));
            && (refused ==> Run(Start(call), w, choices) == Situation(Failed, w))
            && (!refused ==> var first := Step(Start(call), w, choices[0]); first.w == w && !first.p.Failed?)
  {
    Unfold(Start(call), w, choices);
    RunFinal(Failed, w, choices[1..]);
    hide Run;
  }

  /** The grant file of a committed delegation is handed out by a retry exactly if it belongs to the pinned request. */
  lemma RetryTerms(w: World, id: nat, choices: seq<Choice>, scope: nat)
    requires Sound(w) && w.record.state == Invited && id in w.issued
    requires Favourable(choices, scope) && |choices| >= 15
    ensures w.record.approval.Some? && "@" <= w.record.approval.value.request.grantor
    ensures w.grant.None? ==> w.journal.Some?
    ensures var g, request, handle := w.issued[id], w.record.approval.value.request, w.record.approval.value.request.grantor[1..];
            var call := Approve(w.record.invite, request, None, handle);
            Run(Start(call), w, choices).p == Access(g) <==>
            && g.service == w.service && g.grantor == "@" + w.record.owner
            && g.key == request.key && g.recipient == request.recipient
            && (w.grant.Some? || w.journal.value.arguments.scope == scope)
  {
    RetryRecovers(w, id, choices, scope);
    hide Run, Favourable;
  }

  /**
   * With favourable replies a revocation is recorded, with everything revoked, exactly when the
   * delegation is known, or no approval is pinned, or the grant file belongs to the pinned
   * request, or there is neither grant file nor journal.
   */
  lemma RevokeTerms(w: World, choices: seq<Choice>, scope: nat)
    requires Sound(w) && Favourable(choices, scope) && |choices| >= 8
    ensures var r, end := w.record, Run(Start(Revoke), w, choices);
            var revocable := || r.delegation.Some? || r.approval.None?
                             || (w.grant.Some? && w.grant.value.service == w.service && w.grant.value.grantor == "@" + r.owner
                                 && w.grant.value.key == r.approval.value.request.key
                                 && w.grant.value.recipient == r.approval.value.request.recipient)
                             || (w.grant.None? && w.journal.None?);
            && (revocable ==> end.p == Ended && end.w.record.state == Revoked
                              && forall id <- end.w.issued :: end.w.issued[id].delegation in end.w.revoked)
            && (!revocable ==> end == Situation(Failed, w))
  {
    RevokeIff(w, choices, scope);
    hide Run, Favourable;
  }

  // ---------- what is bound ----------

  /** Once issued, a link lasts as many minutes as were approved. */
  predicate Dated(w: World) {
    w.record.state == Issued || w.record.state == Approved ==>
      w.record.approval.Some? && w.record.minutes == w.record.approval.value.minutes
  }

  /** A grant that belongs to this service, this owner and the pinned request. */
  predicate Belongs(w: World, g: Grant) {
    && w.grant == Some(g) && g.service == w.service && g.grantor == "@" + w.record.owner
    && w.record.approval.Some?
    && g.key == w.record.approval.value.request.key && g.recipient == w.record.approval.value.request.recipient
  }

  predicate Termed(p: Process, w: World) {
    && Dated(w)
    && (p.SaveApproval? && w.record.tails.Some? ==> p.r.tails == w.record.tails)
    && (p.SaveIssued? || p.SendTask? || p.SaveApproved? || p.Access? ==> Belongs(w, p.grant))
    && (p.Access? ==> w.record.state == Approved && w.record.delegation == Some(p.grant.delegation))
  }

  /** Tails are taken once; while anything is issued the approval stays as it is. */
  predicate Binds(w: World, next: World) {
    && next.service == w.service && next.record.invite == w.record.invite && next.record.owner == w.record.owner
    && (w.record.tails.Some? ==> next.record.tails == w.record.tails)
    && (w.issued != map[] ==> next.issued != map[] && next.record.approval == w.record.approval)
  }

  lemma StartTermed(p: Process, w: World, c: Choice)
    requires p.Start? && Sound(w) && Dated(w)
    ensures Termed(Step(p, w, c).p, w) && Step(p, w, c).w == w
  {
    hide Admits, ChosenMinutes, AtMostOne, Recoverable, GrantIssued, IdsDrawn;
  }

  lemma PrepareTermed(p: Process, w: World, c: Choice)
    requires p.Mailboxes? || p.SaveApproval? || p.CheckGrant? || p.Resolve? || p.CheckJournal? || p.ReadJournal? || p.WriteJournal?
    requires Sound(w) && Fits(p, w) && Termed(p, w)
    ensures Termed(Step(p, w, c).p, Step(p, w, c).w) && Binds(w, Step(p, w, c).w)
  {
    hide AtMostOne, IdsDrawn, GrantIssued, GrantMatches;
  }

  lemma IssueTermed(p: Process, w: World, c: Choice)
    requires p.Create? || p.DropJournal? || p.UnlinkJournal? || p.Recover? || p.RecoverGrant? || p.DropApproval? || p.SaveGrant?
    requires Sound(w) && Fits(p, w) && Termed(p, w)
    ensures Termed(Step(p, w, c).p, Step(p, w, c).w) && Binds(w, Step(p, w, c).w)
  {
    hide AtMostOne, IdsDrawn, GrantIssued, GrantMatches;
  }

  lemma FinishTermed(p: Process, w: World, c: Choice)
    requires p.LoadGrant? || p.SaveIssued? || p.SendTask? || p.SaveApproved?
    requires Sound(w) && Fits(p, w) && Termed(p, w)
    ensures Termed(Step(p, w, c).p, Step(p, w, c).w) && Binds(w, Step(p, w, c).w)
  {
    hide AtMostOne, IdsDrawn, GrantIssued, Recoverable;
  }

  lemma RevokeTermed(p: Process, w: World, c: Choice)
    requires p.FindGrant? || p.ReadGrant? || p.FindJournal? || p.RevokeSaveIssued? || p.RevokeRemote? || p.Archive? || p.SaveRevoked?
    requires Sound(w) && Fits(p, w) && Termed(p, w)
    ensures Termed(Step(p, w, c).p, Step(p, w, c).w) && Binds(w, Step(p, w, c).w)
  {
    hide AtMostOne, IdsDrawn, GrantIssued, Recoverable, GrantMatches;
  }

  lemma StepTermed(p: Process, w: World, c: Choice)
    requires Sound(w) && Fits(p, w) && Termed(p, w)
    ensures Termed(Step(p, w, c).p, Step(p, w, c).w) && Binds(w, Step(p, w, c).w)
  {
    if p.Start? {
      StartTermed(p, w, c);
    } else if Final(p) {
      FinalKeeps(p, w, c);
    } else {
      hide Sound, Fits, Termed, Binds, Step;
      if p.LoadGrant? || p.SaveIssued? || p.SendTask? || p.SaveApproved? {
        FinishTermed(p, w, c);
      } else if p.FindGrant? || p.ReadGrant? || p.FindJournal? || p.RevokeSaveIssued? || p.RevokeRemote? || p.Archive? || p.SaveRevoked? {
        RevokeTermed(p, w, c);
      } else if p.Create? || p.DropJournal? || p.UnlinkJournal? || p.Recover? || p.RecoverGrant? || p.DropApproval? || p.SaveGrant? {
        IssueTermed(p, w, c);
      } else {
        PrepareTermed(p, w, c);
      }
    }
  }

  lemma {:induction false} RunTermed(p: Process, w: World, choices: seq<Choice>)
    requires Sound(w) && Fits(p, w) && Termed(p, w)
    ensures var end := Run(p, w, choices);
            Sound(end.w) && Termed(end.p, end.w) && Binds(w, end.w)
    decreases |choices|
  {
    hide Sound, Fits, Termed, Step;
    if choices != [] && !Final(p) {
      StepKeeps(p, w, choices[0]);
      assert Kept(p, w, choices[0]);
      StepTermed(p, w, choices[0]);
      var next := Step(p, w, choices[0]);
      RunTermed(next.p, next.w, choices[1..]);
    }
  }

  lemma {:induction false} HistoryTermed(w: World, attempts: seq<Attempt>)
    requires Sound(w) && Dated(w)
    ensures Sound(History(w, attempts)) && Dated(History(w, attempts)) && Binds(w, History(w, attempts))
    decreases |attempts|
  {
    hide Sound, Run, Dated;
    if attempts != [] {
      var start, choices := Start(attempts[0].call), attempts[0].choices;
      DatedStarts(start, w);
      RunTermed(start, w, choices);
      DatedMeans(Run(start, w, choices));
      HistoryTermed(Run(start, w, choices).w, attempts[1..]);
    }
  }

  lemma DatedStarts(p: Process, w: World)
    requires p.Start? && Dated(w)
    ensures Termed(p, w) && Fits(p, w)
  {
  }

  lemma DatedMeans(s: Situation)
    requires Termed(s.p, s.w)
    ensures Dated(s.w)
  {
  }

  /**
   * Whatever was tried before, with crashes and lost replies anywhere: what an approval hands out
   * is the grant on disk, made for this service and owner and for the very key and recipient of
   * the approved join code; the record is approved with its delegation and the approved minutes.
   * The tails taken first stay, and so does the approval once anything was issued.
   */
  lemma ApprovalMeans(service: nat, invite: nat, owner: string, minutes: int, attempts: seq<Attempt>,
                      call: Call, choices: seq<Choice>)
    requires call.Approve?
    ensures var w := History(Invitation(service, invite, owner, minutes), attempts);
            var end := Run(Start(call), w, choices);
            && (end.p.Access? ==>
                  var g, r := end.p.grant, end.w.record;
                  && end.w.grant == Some(g) && g.service == service && g.grantor == "@" + owner
                  && g.key == call.request.key && g.recipient == call.request.recipient
                  && r.invite == call.invite == invite && r.state == Approved && r.delegation == Some(g.delegation)
                  && r.approval.Some? && r.approval.value.request == call.request && r.minutes == r.approval.value.minutes
                  && (call.minutes.Some? ==> r.minutes == call.minutes.value))
            && (w.record.tails.Some? ==> end.w.record.tails == w.record.tails)
            && (w.issued != map[] ==> end.w.record.approval == w.record.approval)
  {
    var start := Invitation(service, invite, owner, minutes);
    InvitationSound(service, invite, owner, minutes);
    assert Dated(start);
    HistoryTermed(start, attempts);
    var w := History(start, attempts);
    hide History;
    DatedStarts(Start(call), w);
    RunTermed(Start(call), w, choices);
    if choices != [] {
      RefusedIff(w, call, choices);
      RequestRun(Start(call), w, choices, call);
    }
    hide Run, Sound;
  }

  // ---------- the request that is approved ----------

  /** An approval works for the request it was called with, and for no other. */
  predicate Serves(p: Process, w: World, call: Call)
    requires call.Approve?
  {
    match p
    case Start(c) => c == call
    case Failed => true
    case Mailboxes(_, a) => Asked(a, call)
    case SaveApproval(r) => r.approval.Some? && Asked(r.approval.value, call)
    case Ended | FindGrant(_) | ReadGrant(_) | FindJournal(_) | RevokeSaveIssued(_, _) | RevokeRemote(_) | Archive(_) | SaveRevoked(_) => false
    case _ => w.record.approval.Some? && Asked(w.record.approval.value, call)
  }

  predicate Asked(a: Approval, call: Call)
    requires call.Approve?
  {
    a.request == call.request && (call.minutes.Some? ==> a.minutes == call.minutes.value)
  }

  lemma ServesStep(p: Process, w: World, c: Choice, call: Call)
    requires call.Approve? && Sound(w) && Fits(p, w) && Serves(p, w, call)
    ensures Serves(Step(p, w, c).p, Step(p, w, c).w, call)
  {
    hide AtMostOne, Recoverable, GrantIssued, IdsDrawn, GrantMatches;
  }

  lemma {:induction false} RequestRun(p: Process, w: World, choices: seq<Choice>, call: Call)
    requires call.Approve? && Sound(w) && Fits(p, w) && Serves(p, w, call)
    ensures Serves(Run(p, w, choices).p, Run(p, w, choices).w, call)
    decreases |choices|
  {
    hide Sound, Fits, Serves, Step;
    if choices != [] && !Final(p) {
      StepKeeps(p, w, choices[0]);
      assert Kept(p, w, choices[0]);
      ServesStep(p, w, choices[0], call);
      var next := Step(p, w, choices[0]);
      RequestRun(next.p, next.w, choices[1..], call);
    }
  }
}
