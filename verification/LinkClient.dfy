/**
 * The owner's client as it runs: the record, grant file and journal are updated in place, one
 * durable effect at a time. `choices` is what the outside answers; a call whose choices run
 * out has crashed there. Every method is tied to the step machine of LinkSaga.
 */
module LinkClient {
  import opened Wrappers
  import opened LinkSaga
  import opened LinkTerms

  class Owner {
    const service: nat
    var record: Record
    var grant: Option<Grant>
    var journal: Option<Journal>
    var issued: map<nat, Grant>
    var revoked: set<nat>
    var drawn: nat

    function View(): World
      reads this
    {
      World(service, record, grant, journal, issued, revoked, drawn)
    }

    constructor (service: nat, invite: nat, owner: string, minutes: int)
      ensures View() == Invitation(service, invite, owner, minutes) && Sound(View())
    {
      this.service := service;
      record := Record(invite, owner, Invited, minutes, None, None, None);
      grant, journal, issued, revoked, drawn := None, None, map[], {}, 0;
      new;
      InvitationSound(service, invite, owner, minutes);
    }

    /** The journaled issuance. `ok` means that the grant file was written and the journal removed. */
    method CreateDelegation(r: Record, choices: seq<Choice>)
      returns (ok: bool, rest: seq<Choice>, ghost at: Process)
      modifies this
      ensures Run(Resolve(r), old(View()), choices) == Run(at, View(), rest)
      ensures ok ==> at == LoadGrant(r)
      ensures !ok && rest != [] ==> at == Recover(r)
      ensures !at.Access?
    {
      hide Run;
      ok, rest, at := false, choices, Resolve(r);
      if rest == [] { return; }
      Unfold(at, View(), rest);
      if rest[0].reply != Ok || r.approval.None? {
        at, rest := Recover(r), rest[1..];
        return;
      }
      var arguments := Arguments(r.approval.value.request, rest[0].scope, r.approval.value.minutes);
      at, rest := CheckJournal(r, arguments), rest[1..];
      if rest == [] { return; }
      Unfold(at, View(), rest);
      rest := rest[1..];
      var requestId;
      if journal.Some? {
        at := ReadJournal(r, arguments);
        if rest == [] { return; }
        Unfold(at, View(), rest);
        if journal.value.arguments != arguments {
          at, rest := Recover(r), rest[1..];
          return;
        }
        requestId := journal.value.requestId;
      } else {
        at := WriteJournal(r, arguments);
        if rest == [] { return; }
        Unfold(at, View(), rest);
        requestId := drawn;
        drawn := drawn + 1;
        journal := Some(Journal(arguments, requestId));
      }
      at, rest := Create(r, arguments, requestId), rest[1..];
      ok, rest, at := Submit(r, arguments, requestId, rest);
    }

    /** The call itself and what is done with its result. */
    method Submit(r: Record, arguments: Arguments, requestId: nat, choices: seq<Choice>)
      returns (ok: bool, rest: seq<Choice>, ghost at: Process)
      requires journal.Some?
      modifies this
      ensures Run(Create(r, arguments, requestId), old(View()), choices) == Run(at, View(), rest)
      ensures ok ==> at == LoadGrant(r)
      ensures !ok && rest != [] ==> at == Recover(r)
      ensures !at.Access?
    {
      hide Run, Admits, ChosenMinutes, GrantMatches, WithGrant;
      ok, rest, at := false, choices, Create(r, arguments, requestId);
      if rest == [] { return; }
      Unfold(at, View(), rest);
      var reply := rest[0].reply;
      if requestId !in issued && (reply == Ok || reply == Uncertain(true)) {
        issued := issued[requestId := rest[0].grant];
      }
      if reply == Rejected && requestId !in issued {
        at, rest := DropJournal(r), rest[1..];
        if rest == [] { return; }
        Unfold(at, View(), rest);
        journal := None;
        at, rest := Recover(r), rest[1..];
        return;
      }
      if reply != Ok {
        at, rest := Recover(r), rest[1..];
        return;
      }
      var result := issued[requestId];
      at, rest := SaveGrant(r, result), rest[1..];
      if rest == [] { return; }
      Unfold(at, View(), rest);
      grant := Some(result);
      at, rest := UnlinkJournal(r), rest[1..];
      if rest == [] { return; }
      Unfold(at, View(), rest);
      journal := None;
      at, rest, ok := LoadGrant(r), rest[1..], true;
    }

    /** From the grant file to the approved record. */
    method FinishApprove(loaded: Record, choices: seq<Choice>)
      returns (access: Option<Grant>, rest: seq<Choice>, ghost at: Process)
      modifies this`record
      ensures Run(LoadGrant(loaded), old(View()), choices) == Run(at, View(), rest)
      ensures access.Some? ==> at == Access(access.value)
      ensures access.None? ==> !at.Access? && (rest != [] ==> at == Failed)
    {
      hide Run;
      var r := loaded;
      access, rest, at := None, choices, LoadGrant(r);
      if rest == [] { return; }
      Unfold(at, View(), rest);
      if grant.None? || !GrantMatches(View(), r, grant.value) {
        at, rest := Failed, rest[1..];
        return;
      }
      var g := grant.value;
      rest := rest[1..];
      if r.state == Invited {
        at := SaveIssued(r, g);
        if rest == [] { return; }
        Unfold(at, View(), rest);
        r := WithGrant(r, g);
        record := r;
        rest := rest[1..];
      } else if r.state != Issued {
        return Some(g), rest, Access(g);
      }
      at := SendTask(r, g);
      if rest == [] { return; }
      Unfold(at, View(), rest);
      if rest[0].reply != Ok {
        at, rest := Failed, rest[1..];
        return;
      }
      at, rest := SaveApproved(r, g), rest[1..];
      if rest == [] { return; }
      Unfold(at, View(), rest);
      r := r.(state := Approved);
      record := r;
      return Some(g), rest[1..], Access(g);
    }

    /** A definitive rejection issued nothing, so the approval is let go; otherwise it stays bound. */
    method Release(r: Record, choices: seq<Choice>) returns (rest: seq<Choice>, ghost at: Process)
      modifies this`record
      ensures Run(Recover(r), old(View()), choices) == Run(at, View(), rest)
      ensures !at.Access? && (rest != [] ==> at == Failed)
    {
      hide Run;
      rest, at := choices, Recover(r);
      if rest == [] { return; }
      Unfold(at, View(), rest);
      rest := rest[1..];
      if journal.Some? { return rest, Failed; }
      at := RecoverGrant(r);
      if rest == [] { return; }
      Unfold(at, View(), rest);
      rest := rest[1..];
      if grant.Some? { return rest, Failed; }
      at := DropApproval(r);
      if rest == [] { return; }
      Unfold(at, View(), rest);
      record := r.(approval := None);
      return rest[1..], Failed;
    }

    method ApproveLink(call: Call, choices: seq<Choice>) returns (access: Option<Grant>, ghost end: Process)
      requires call.Approve?
      modifies this
      ensures Situation(end, View()) == Run(Start(call), old(View()), choices)
      ensures access.Some? <==> end.Access?
      ensures access.Some? ==> end.grant == access.value
      ensures old(record.invite) != call.invite || old(record.state) == Revoked ==> access.None? && View() == old(View())
      ensures call.request.grantor != "@" + call.handle || call.request.service != service ==> access.None? && View() == old(View())
      ensures call.minutes.Some? && !(1 <= call.minutes.value <= 1440) ==> access.None? && View() == old(View())
      ensures old(record.approval).Some? && old(record.approval).value.request != call.request ==> access.None? && View() == old(View())
    {
      hide Run;
      if choices != [] { RefusedIff(View(), call, choices); }
      var rest := choices;
      access, end := None, Start(call);
      Stops(end, View(), rest);
      if rest == [] { return; }
      Unfold(end, View(), rest);
      rest := rest[1..];
      if !Admits(View(), call) {
        end := Failed;
        Stops(end, View(), rest);
        return;
      }
      var r := record;
      if r.state == Invited {
        var saved;
        saved, rest, end := Issue(r, Approval(call.request, ChosenMinutes(r, call.minutes)), rest);
        Stops(end, View(), rest);
        if saved.None? { return; }
        r := saved.value;
      }
      access, rest, end := FinishApprove(r, rest);
      Stops(end, View(), rest);
    }

    /** Mailboxes, the pinned approval, and the issuance unless a grant file is already there. */
    method Issue(loaded: Record, approval: Approval, choices: seq<Choice>)
      returns (saved: Option<Record>, rest: seq<Choice>, ghost at: Process)
      modifies this
      ensures Run(Mailboxes(loaded, approval), old(View()), choices) == Run(at, View(), rest)
      ensures saved.Some? ==> at == LoadGrant(saved.value)
      ensures saved.None? && rest != [] ==> at == Failed
      ensures saved.None? ==> !at.Access?
    {
      hide Run;
      var r := loaded;
      saved, rest, at := None, choices, Mailboxes(r, approval);
      if rest == [] { return; }
      Unfold(at, View(), rest);
      if rest[0].reply != Ok {
        at, rest := Failed, rest[1..];
        return;
      }
      r := r.(tails := if r.tails.Some? then r.tails else Some(rest[0].tails), approval := Some(approval));
      at, rest := SaveApproval(r), rest[1..];
      if rest == [] { return; }
      Unfold(at, View(), rest);
      record := r;
      at, rest := CheckGrant(r), rest[1..];
      if rest == [] { return; }
      Unfold(at, View(), rest);
      rest := rest[1..];
      if grant.Some? {
        return Some(r), rest, LoadGrant(r);
      }
      var ok;
      ok, rest, at := CreateDelegation(r, rest);
      if ok { return Some(r), rest, at; }
      if rest == [] { return; }
      rest, at := Release(r, rest);
    }

    method RevokeLink(choices: seq<Choice>) returns (done: bool, ghost end: Process)
      modifies this
      ensures Situation(end, View()) == Run(Start(Revoke), old(View()), choices)
      ensures done <==> end == Ended
      ensures done && old(Sound(View())) ==> record.state == Revoked && AllRevoked(View())
    {
      hide Run, Sound, Fits, AllRevoked;
      ghost var before := View();
      var rest := choices;
      done, end := false, Start(Revoke);
      Stops(end, View(), rest);
      if rest == [] { return; }
      Unfold(end, View(), rest);
      rest := rest[1..];
      var r := record;
      if r.delegation.None? && r.approval.Some? {
        var found;
        found, rest, end := FindIssued(r, rest);
        Stops(end, View(), rest);
        if found.None? { return; }
        r := found.value;
      }
      done, end := Withdraw(r, rest);
      if done { EndedRevoked(before, choices); }
    }

    /** What was issued without being recorded is recorded first; an uncertain issuance is refused. */
    method FindIssued(loaded: Record, choices: seq<Choice>)
      returns (found: Option<Record>, rest: seq<Choice>, ghost at: Process)
      requires loaded.delegation.None?
      modifies this`record
      ensures Run(FindGrant(loaded), old(View()), choices) == Run(at, View(), rest)
      ensures found.Some? ==> at == if found.value.delegation.Some? then RevokeRemote(found.value) else SaveRevoked(found.value)
      ensures found.None? ==> at != Ended && (rest != [] ==> at == Failed)
    {
      hide Run, GrantMatches;
      var r := loaded;
      found, rest, at := None, choices, FindGrant(r);
      if rest == [] { return; }
      Unfold(at, View(), rest);
      rest := rest[1..];
      if grant.Some? {
        at := ReadGrant(r);
        if rest == [] { return; }
        Unfold(at, View(), rest);
        rest := rest[1..];
        if !GrantMatches(View(), r, grant.value) { return None, rest, Failed; }
        at := RevokeSaveIssued(r, grant.value);
        if rest == [] { return; }
        Unfold(at, View(), rest);
        r := WithGrant(r, grant.value);
        record := r;
        return Some(r), rest[1..], RevokeRemote(r);
      }
      at := FindJournal(r);
      if rest == [] { return; }
      Unfold(at, View(), rest);
      rest := rest[1..];
      if journal.Some? { return None, rest, Failed; }
      return Some(r), rest, SaveRevoked(r);
    }

    /** The remote revocation, the archived mailboxes and the final record. */
    method Withdraw(r: Record, choices: seq<Choice>) returns (done: bool, ghost end: Process)
      modifies this`record, this`revoked
      ensures Situation(end, View()) ==
              Run(if r.delegation.Some? then RevokeRemote(r) else SaveRevoked(r), old(View()), choices)
      ensures done <==> end == Ended
    {
      hide Run;
      var rest := choices;
      done := false;
      if r.delegation.Some? {
        end := RevokeRemote(r);
        Stops(end, View(), rest);
        if rest == [] { return; }
        Unfold(end, View(), rest);
        var reply := rest[0].reply;
        if reply == Ok || reply == Uncertain(true) {
          revoked := revoked + {r.delegation.value};
        }
        end, rest := (if reply == Ok then Archive(r) else Failed), rest[1..];
        Stops(end, View(), rest);
        if reply != Ok || rest == [] { return; }
        Unfold(end, View(), rest);
        if rest[0].reply != Ok {
          end := Failed;
          Stops(end, View(), rest[1..]);
          return;
        }
        rest := rest[1..];
      }
      end := SaveRevoked(r);
      Stops(end, View(), rest);
      if rest == [] { return; }
      Unfold(end, View(), rest);
      record := r.(state := Revoked);
      done, end := true, Ended;
      Stops(end, View(), rest[1..]);
    }
  }

  /** A call stops when it is over or when nothing more is answered. */
  lemma Stops(p: Process, w: World, rest: seq<Choice>)
    ensures rest == [] || Final(p) ==> Run(p, w, rest) == Situation(p, w)
  {
  }

  /** A revocation that ends has left the record revoked and nothing standing. */
  lemma {:induction false} EndedRun(p: Process, w: World, choices: seq<Choice>)
    requires !p.Ended? && !(p.Start? && p.call.Approve?) && Run(p, w, choices).p == Ended
    ensures Run(p, w, choices).w.record.state == Revoked
    decreases |choices|
  {
    hide Run;
    Stops(p, w, choices);
    if choices != [] && !Final(p) {
      Unfold(p, w, choices);
      var next := Step(p, w, choices[0]);
      Stops(next.p, next.w, choices[1..]);
      if next.p != Ended { EndedRun(next.p, next.w, choices[1..]); }
    }
  }

  lemma EndedRevoked(w: World, choices: seq<Choice>)
    requires Run(Start(Revoke), w, choices).p == Ended
    ensures Run(Start(Revoke), w, choices).w.record.state == Revoked
    ensures Sound(w) ==> AllRevoked(Run(Start(Revoke), w, choices).w)
  {
    hide Run, AllRevoked, AtMostOne, Recoverable, GrantIssued, IdsDrawn, RecordFits;
    EndedRun(Start(Revoke), w, choices);
    if Sound(w) { RunKeeps(Start(Revoke), w, choices); }
  }

  /** Any number of approvals and revocations by one owner, one after the other, crashing anywhere. */
  method Serve(owner: Owner, attempts: seq<Attempt>)
    requires Sound(owner.View())
    modifies owner
    ensures owner.View() == History(old(owner.View()), attempts)
    ensures AtMostOne(owner.View()) && Recoverable(owner.View())
    ensures owner.record.state == Revoked ==> AllRevoked(owner.View())
    decreases |attempts|
  {
    hide Sound, Run, AtMostOne, Recoverable, AllRevoked;
    if attempts != [] {
      ghost var before := owner.View();
      var call := attempts[0].call;
      ghost var end;
      RunKeeps(Start(call), before, attempts[0].choices);
      if call.Approve? {
        var access;
        access, end := owner.ApproveLink(call, attempts[0].choices);
      } else {
        var done;
        done, end := owner.RevokeLink(attempts[0].choices);
      }
      Serve(owner, attempts[1..]);
    } else {
      SoundMeans(owner.View());
    }
  }

  lemma SoundMeans(w: World)
    requires Sound(w)
    ensures AtMostOne(w) && Recoverable(w) && (w.record.state == Revoked ==> AllRevoked(w))
  {
  }
}
