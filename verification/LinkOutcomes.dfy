/** How each remote reply decides an approval or a revocation: the outcome and the whole world after it. */
module LinkOutcomes {
  import opened Wrappers
  import opened LinkSaga

  function Recorded(w: World, r: Record): World { w.(record := r) }

  function Made(w: World, id: nat, g: Grant): World { w.(issued := w.issued[id := g]) }

  function Granted(w: World, g: Grant): World { w.(grant := Some(g)) }

  function Unjournaled(w: World): World { w.(journal := None) }

  function Kept(w: World, g: Grant): World { Unjournaled(Granted(w, g)) }

  function Gone(w: World, delegation: nat): World { w.(revoked := w.revoked + {delegation}) }

  function Unbound(r: Record): Record { r.(approval := None) }

  function Done(r: Record): Record { r.(state := Approved) }

  function Withdrawn(r: Record): Record { r.(state := Revoked) }

  /** The world after a request id was drawn: everything but the service and what is revoked. */
  function Drawn(w: World, r: Record, grant: Option<Grant>, journal: Option<Journal>, issued: map<nat, Grant>): World {
    World(w.service, r, grant, journal, issued, w.revoked, w.drawn + 1)
  }

  lemma Next(p: Process, w: World, choices: seq<Choice>, k: nat)
    requires k < |choices| && !Final(p)
    ensures var next := Step(p, w, choices[k]);
            Run(p, w, choices[k..]) == Run(next.p, next.w, choices[k + 1..])
  {
    hide Step;
    assert choices[k..][1..] == choices[k + 1..];
    Unfold(p, w, choices[k..]);
  }

  /** With neither journal nor grant file the approval is let go. */
  lemma LetGo(r: Record, w: World, choices: seq<Choice>, k: nat)
    requires k + 3 <= |choices| && w.grant.None? && w.journal.None?
    ensures Run(Recover(r), w, choices[k..]) == Situation(Failed, Recorded(w, Unbound(r)))
  {
    hide Run;
    Next(Recover(r), w, choices, k);
    Next(RecoverGrant(r), w, choices, k + 1);
    Next(DropApproval(r), w, choices, k + 2);
    RunFinal(Failed, Recorded(w, Unbound(r)), choices[k + 3..]);
  }

  /** The grant belongs to this service, this owner and the pinned request. */
  predicate Fitting(w: World, r: Record, g: Grant) {
    && g.service == w.service && g.grantor == "@" + r.owner && r.approval.Some?
    && g.key == r.approval.value.request.key && g.recipient == r.approval.value.request.recipient
  }

  /** The record of an issued link: its delegation, and the minutes that were approved. */
  function IssuedRecord(r: Record, g: Grant): Record
    requires r.approval.Some?
  {
    r.(state := Issued, delegation := Some(g.delegation), minutes := r.approval.value.minutes)
  }

  /** A recorded issuance is sent out before anything counts as approved. */
  lemma Sends(r: Record, g: Grant, w: World, choices: seq<Choice>, k: nat)
    requires k + 2 <= |choices|
    ensures Run(SendTask(r, g), w, choices[k..]) ==
            if choices[k].reply == Ok then Situation(Access(g), Recorded(w, Done(r))) else Situation(Failed, w)
  {
    hide Run;
    Next(SendTask(r, g), w, choices, k);
    if choices[k].reply == Ok {
      Next(SaveApproved(r, g), w, choices, k + 1);
      RunFinal(Access(g), Recorded(w, Done(r)), choices[k + 2..]);
    } else {
      RunFinal(Failed, w, choices[k + 1..]);
    }
  }

  /** From the grant file of an invited record: it must fit, and is recorded first. */
  lemma Finishes(r: Record, w: World, choices: seq<Choice>, k: nat)
    requires k + 4 <= |choices| && r.state == Invited && r.approval.Some? && w.grant.Some?
    ensures var g, end := w.grant.value, Run(LoadGrant(r), w, choices[k..]);
            if !Fitting(w, r, g) then end == Situation(Failed, w)
            else if choices[k + 2].reply != Ok then end == Situation(Failed, Recorded(w, IssuedRecord(r, g)))
            else end == Situation(Access(g), Recorded(w, Done(IssuedRecord(r, g))))
  {
    hide Run;
    var g := w.grant.value;
    Next(LoadGrant(r), w, choices, k);
    if Fitting(w, r, g) {
      Next(SaveIssued(r, g), w, choices, k + 1);
      hide Step;
      Sends(IssuedRecord(r, g), g, Recorded(w, IssuedRecord(r, g)), choices, k + 2);
    } else {
      RunFinal(Failed, w, choices[k + 1..]);
    }
  }

  /** The one create call of a first approval, and what each reply to it leaves. */
  lemma Creates(r: Record, w: World, a: Arguments, choices: seq<Choice>, k: nat)
    requires k + 5 <= |choices| && w.grant.None? && w.journal.Some? && w.journal.value.requestId !in w.issued
    ensures var id, c := w.journal.value.requestId, choices[k];
            var made := Made(w, id, c.grant);
            var end := Run(Create(r, a, id), w, choices[k..]);
            && (c.reply == Rejected ==> end == Situation(Failed, Recorded(Unjournaled(w), Unbound(r))))
            && (c.reply == Uncertain(false) ==> end == Situation(Failed, w))
            && (c.reply == Uncertain(true) ==> end == Situation(Failed, made))
            && (c.reply == Ok ==> end == Run(LoadGrant(r), Kept(made, c.grant), choices[k + 3..]))
  {
    hide Run;
    var id, c := w.journal.value.requestId, choices[k];
    var made := Made(w, id, c.grant);
    Next(Create(r, a, id), w, choices, k);
    match c.reply {
      case Rejected =>
        Next(DropJournal(r), w, choices, k + 1);
        var free := Unjournaled(w);
        LetGo(r, free, choices, k + 2);
      case Uncertain(committed) =>
        var after := if committed then made else w;
        Next(Recover(r), after, choices, k + 1);
        RunFinal(Failed, after, choices[k + 2..]);
      case Ok =>
        Next(SaveGrant(r, c.grant), made, choices, k + 1);
        Next(UnlinkJournal(r), Granted(made, c.grant), choices, k + 2);
    }
  }

  /** An invitation for which nothing was approved or issued, with an unused request id to draw. */
  predicate Fresh(w: World) {
    && w.record.state == Invited && w.record.approval.None? && w.grant.None? && w.journal.None? && w.drawn !in w.issued
  }

  /** A join code for this invitation, owner and service, with minutes given or left to the invitation. */
  predicate Welcome(w: World, call: Call, minutes: int) {
    && call.Approve? && call.invite == w.record.invite && call.request.grantor == "@" + call.handle
    && call.request.service == w.service && 1 <= minutes <= 1440
    && minutes == if call.minutes.Some? then call.minutes.value else w.record.minutes
  }

  /** Tails are taken once; the request and minutes are pinned. */
  function Bound(r: Record, a: Approval, tails: nat): Record {
    r.(tails := if r.tails.Some? then r.tails else Some(tails), approval := Some(a))
  }

  /** Mailboxes, the pinned approval, and the journal entry under a request id never used before. */
  lemma Opens(w: World, call: Call, choices: seq<Choice>, minutes: int)
    requires Fresh(w) && |choices| >= 14 && Welcome(w, call, minutes)
    ensures var end: Situation := Run(Start(call), w, choices);
            var bound: Record := Bound(w.record, Approval(call.request, minutes), choices[1].tails);
            var a := Arguments(call.request, choices[4].scope, minutes);
            && (choices[1].reply != Ok ==> end == Situation(Failed, w))
            && (choices[1].reply == Ok && choices[4].reply != Ok ==>
                  end == Situation(Failed, Recorded(w, Unbound(bound))))
            && (choices[1].reply == Ok && choices[4].reply == Ok ==>
                  end == Run(Create(bound, a, w.drawn), Drawn(w, bound, None, Some(Journal(a, w.drawn)), w.issued), choices[7..]))
  {
    hide Run;
    var asked := Approval(call.request, minutes);
    var bound := Bound(w.record, asked, choices[1].tails);
    var next := Recorded(w, bound);
    var a := Arguments(call.request, choices[4].scope, minutes);
    assert choices[0..] == choices;
    Next(Start(call), w, choices, 0);
    Next(Mailboxes(w.record, asked), w, choices, 1);
    if choices[1].reply != Ok {
      RunFinal(Failed, w, choices[2..]);
    } else {
      Next(SaveApproval(bound), w, choices, 2);
      Next(CheckGrant(bound), next, choices, 3);
      Next(Resolve(bound), next, choices, 4);
      if choices[4].reply != Ok {
        LetGo(bound, next, choices, 5);
      } else {
        Next(CheckJournal(bound, a), next, choices, 5);
        Next(WriteJournal(bound, a), next, choices, 6);
      }
    }
  }

  /**
   * A first approval, reply by reply. If the mailboxes fail, nothing has changed. If the granted
   * paths do not resolve, or the server definitely refuses, the approval is let go again, with no
   * journal and nothing issued. If the server's answer is lost, journal and approval stay,
   * whether the delegation was committed or not. If the grant does not fit the request, or the
   * task is not delivered, nothing is handed out, and the record is at most issued. If all go
   * well the grant is handed out and the record approved.
   */
  lemma FirstApproval(w: World, call: Call, choices: seq<Choice>, minutes: int)
    requires Fresh(w) && |choices| >= 14 && Welcome(w, call, minutes)
    ensures var end: Situation := Run(Start(call), w, choices);
            var bound: Record := Bound(w.record, Approval(call.request, minutes), choices[1].tails);
            var g, journal := choices[7].grant, Some(Journal(Arguments(call.request, choices[4].scope, minutes), w.drawn));
            var made := w.issued[w.drawn := g];
            end ==
            if choices[1].reply != Ok then Situation(Failed, w)
            else if choices[4].reply != Ok then Situation(Failed, Recorded(w, Unbound(bound)))
            else if choices[7].reply == Rejected then Situation(Failed, Drawn(w, Unbound(bound), None, None, w.issued))
            else if choices[7].reply == Uncertain(false) then Situation(Failed, Drawn(w, bound, None, journal, w.issued))
            else if choices[7].reply == Uncertain(true) then Situation(Failed, Drawn(w, bound, None, journal, made))
            else if !Fitting(w, bound, g) then Situation(Failed, Drawn(w, bound, Some(g), None, made))
            else if choices[12].reply != Ok then Situation(Failed, Drawn(w, IssuedRecord(bound, g), Some(g), None, made))
            else Situation(Access(g), Drawn(w, Done(IssuedRecord(bound, g)), Some(g), None, made))
  {
    hide Run, Step;
    Opens(w, call, choices, minutes);
    if choices[1].reply == Ok && choices[4].reply == Ok {
      var bound := Bound(w.record, Approval(call.request, minutes), choices[1].tails);
      var a := Arguments(call.request, choices[4].scope, minutes);
      Creates(bound, Drawn(w, bound, None, Some(Journal(a, w.drawn)), w.issued), a, choices, 7);
      if choices[7].reply == Ok {
        var g := choices[7].grant;
        Finishes(bound, Drawn(w, bound, Some(g), None, w.issued[w.drawn := g]), choices, 10);
      }
    }
  }

  /** A recorded issuance is sent out again from its grant file. */
  lemma Resends(r: Record, w: World, choices: seq<Choice>, k: nat)
    requires k + 3 <= |choices| && r.state == Issued && w.grant.Some? && Fitting(w, r, w.grant.value)
    ensures Run(LoadGrant(r), w, choices[k..]) ==
            if choices[k + 1].reply == Ok then Situation(Access(w.grant.value), Recorded(w, Done(r))) else Situation(Failed, w)
  {
    hide Run;
    Next(LoadGrant(r), w, choices, k);
    Sends(r, w.grant.value, w, choices, k + 1);
  }

  /** The issuance is recorded, and its grant file is there and fits. */
  predicate Unsent(w: World) {
    w.record.state == Issued && w.grant.Some? && Fitting(w, w.record, w.grant.value)
  }

  /** The same join code once more, with the same minutes or none. */
  predicate Again(w: World, call: Call) {
    && call.Approve? && w.record.approval.Some? && call.invite == w.record.invite
    && call.request == w.record.approval.value.request && call.request.grantor == "@" + call.handle
    && call.request.service == w.service && 1 <= w.record.approval.value.minutes <= 1440
    && (call.minutes.None? || call.minutes.value == w.record.approval.value.minutes)
  }

  /** An issued link whose task was not delivered yet is approved by the next call exactly if that delivers it. */
  lemma SentAgain(w: World, call: Call, choices: seq<Choice>)
    requires Unsent(w) && |choices| >= 4 && Again(w, call)
    ensures Run(Start(call), w, choices) ==
            if choices[2].reply == Ok then Situation(Access(w.grant.value), Recorded(w, Done(w.record))) else Situation(Failed, w)
  {
    hide Run;
    assert choices[0..] == choices;
    Next(Start(call), w, choices, 0);
    Resends(w.record, w, choices, 1);
  }

  /** A confirmed revocation is recorded once the mailboxes are archived. */
  lemma Archives(r: Record, w: World, choices: seq<Choice>, k: nat)
    requires k + 2 <= |choices|
    ensures Run(Archive(r), w, choices[k..]) ==
            if choices[k].reply == Ok then Situation(Ended, Recorded(w, Withdrawn(r))) else Situation(Failed, w)
  {
    hide Run;
    Next(Archive(r), w, choices, k);
    if choices[k].reply == Ok {
      Next(SaveRevoked(r), w, choices, k + 1);
      RunFinal(Ended, Recorded(w, Withdrawn(r)), choices[k + 2..]);
    } else {
      RunFinal(Failed, w, choices[k + 1..]);
    }
  }

  lemma Asked(r: Record, w: World, c: Choice)
    requires r.delegation.Some?
    ensures var gone := Gone(w, r.delegation.value);
            Step(RevokeRemote(r), w, c) ==
            match c.reply
            case Ok => Situation(Archive(r), gone)
            case Uncertain(committed) => Situation(Failed, if committed then gone else w)
            case Rejected => Situation(Failed, w)
  {
  }

  /** The remote revocation and the archived mailboxes, reply by reply. */
  lemma Withdraws(r: Record, w: World, choices: seq<Choice>, k: nat)
    requires r.delegation.Some? && k + 3 <= |choices|
    ensures var end := Run(RevokeRemote(r), w, choices[k..]);
            var gone := Gone(w, r.delegation.value);
            && (choices[k].reply == Rejected || choices[k].reply == Uncertain(false) ==> end == Situation(Failed, w))
            && (choices[k].reply == Uncertain(true) ==> end == Situation(Failed, gone))
            && (choices[k].reply == Ok && choices[k + 1].reply != Ok ==> end == Situation(Failed, gone))
            && (choices[k].reply == Ok && choices[k + 1].reply == Ok ==>
                  end == Situation(Ended, Recorded(gone, Withdrawn(r))))
  {
    hide Run, Step;
    var gone := Gone(w, r.delegation.value);
    Asked(r, w, choices[k]);
    Next(RevokeRemote(r), w, choices, k);
    Archives(r, gone, choices, k + 1);
    RunFinal(Failed, w, choices[k + 1..]);
    RunFinal(Failed, gone, choices[k + 1..]);
  }

  /** What is in the grant file without being recorded is recorded, if it fits. */
  lemma Finds(r: Record, w: World, choices: seq<Choice>, k: nat)
    requires k + 3 <= |choices| && w.grant.Some? && r.approval.Some?
    ensures var g := w.grant.value;
            Run(FindGrant(r), w, choices[k..]) ==
            if Fitting(w, r, g) then Run(RevokeRemote(IssuedRecord(r, g)), Recorded(w, IssuedRecord(r, g)), choices[k + 3..])
            else Situation(Failed, w)
  {
    hide Run;
    var g := w.grant.value;
    Next(FindGrant(r), w, choices, k);
    Next(ReadGrant(r), w, choices, k + 1);
    if Fitting(w, r, g) {
      Next(RevokeSaveIssued(r, g), w, choices, k + 2);
    } else {
      RunFinal(Failed, w, choices[k + 2..]);
    }
  }

  /** Without a grant file a journal means an issuance that may have been committed. */
  lemma FindsNone(r: Record, w: World, choices: seq<Choice>, k: nat)
    requires k + 3 <= |choices| && w.grant.None?
    ensures Run(FindGrant(r), w, choices[k..]) ==
            if w.journal.Some? then Situation(Failed, w) else Situation(Ended, Recorded(w, Withdrawn(r)))
  {
    hide Run;
    Next(FindGrant(r), w, choices, k);
    Next(FindJournal(r), w, choices, k + 1);
    if w.journal.Some? {
      RunFinal(Failed, w, choices[k + 2..]);
    } else {
      Next(SaveRevoked(r), w, choices, k + 2);
      RunFinal(Ended, Recorded(w, Withdrawn(r)), choices[k + 3..]);
    }
  }

  /**
   * A revocation, reply by reply. The record says revoked only after the server has confirmed that
   * the delegation is revoked and the mailboxes were archived; a delegation that is only in the
   * grant file is recorded first; a journal without a grant file, or a grant that does not fit,
   * ends the call with nothing changed; and what was never approved is revoked without the server.
   */
  lemma Revocation(w: World, choices: seq<Choice>)
    requires |choices| >= 7
    ensures var r, end := w.record, Run(Start(Revoke), w, choices);
            && (r.delegation.Some? ==> end == Run(RevokeRemote(r), w, choices[1..]))
            && (r.delegation.None? && r.approval.None? ==> end == Situation(Ended, Recorded(w, Withdrawn(r))))
            && (r.delegation.None? && r.approval.Some? && w.grant.Some? && Fitting(w, r, w.grant.value) ==>
                  var found := IssuedRecord(r, w.grant.value);
                  end == Run(RevokeRemote(found), Recorded(w, found), choices[4..]))
            && (r.delegation.None? && r.approval.Some? && w.grant.Some? && !Fitting(w, r, w.grant.value) ==> end == Situation(Failed, w))
            && (r.delegation.None? && r.approval.Some? && w.grant.None? && w.journal.Some? ==> end == Situation(Failed, w))
            && (r.delegation.None? && r.approval.Some? && w.grant.None? && w.journal.None? ==>
                  end == Situation(Ended, Recorded(w, Withdrawn(r))))
  {
    hide Run;
    var r := w.record;
    assert choices[0..] == choices;
    Next(Start(Revoke), w, choices, 0);
    if r.delegation.None? && r.approval.None? {
      Next(SaveRevoked(r), w, choices, 1);
      RunFinal(Ended, Recorded(w, Withdrawn(r)), choices[2..]);
    } else if r.delegation.None? && w.grant.Some? {
      Finds(r, w, choices, 1);
    } else if r.delegation.None? {
      FindsNone(r, w, choices, 1);
    }
  }
}
