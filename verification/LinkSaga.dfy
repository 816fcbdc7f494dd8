/**
 * Agent Link approval and revocation as a step machine. The owner's disk holds one link
 * record, an invitation-bound grant file and an issuance journal; the server maps the request
 * ids it has committed to their grants. One step is one read of a file, one durable write, one
 * unlink or one remote call. A call that stops being scheduled has crashed.
 */
module LinkSaga {
  import opened Wrappers

  datatype Stage = Invited | Issued | Approved | Revoked

  /** What the worker's join code carries: the grantor it named and its public parts. */
  datatype Request = Request(service: nat, grantor: string, key: nat, recipient: nat, proof: nat)

  datatype Approval = Approval(request: Request, minutes: int)

  datatype Record = Record(
    invite: nat, owner: string, state: Stage, minutes: int,
    tails: Option<nat>, approval: Option<Approval>, delegation: Option<nat>)

  datatype Grant = Grant(delegation: nat, service: nat, grantor: string, key: nat, recipient: nat)

  /** The signed arguments of one issuance; `scope` is what the granted paths resolved to. */
  datatype Arguments = Arguments(request: Request, scope: nat, minutes: int)

  datatype Journal = Journal(arguments: Arguments, requestId: nat)

  datatype World = World(
    service: nat, record: Record, grant: Option<Grant>, journal: Option<Journal>,
    issued: map<nat, Grant>, revoked: set<nat>, drawn: nat)

  /** How a remote call ends. An uncertain call may or may not have taken effect. */
  datatype Reply = Ok | Uncertain(committed: bool) | Rejected

  /** What the outside decides in one step. */
  datatype Choice = Choice(reply: Reply, tails: nat, scope: nat, grant: Grant)

  datatype Call =
    | Approve(invite: nat, request: Request, minutes: Option<int>, handle: string)
    | Revoke

  /** Where a call stands; `r` is its own copy of the record. */
  datatype Process =
    | Start(call: Call)
    | Mailboxes(r: Record, approval: Approval)
    | SaveApproval(r: Record)
    | CheckGrant(r: Record)
    | Resolve(r: Record)
    | CheckJournal(r: Record, arguments: Arguments)
    | ReadJournal(r: Record, arguments: Arguments)
    | WriteJournal(r: Record, arguments: Arguments)
    | Create(r: Record, arguments: Arguments, requestId: nat)
    | DropJournal(r: Record)
    | Recover(r: Record)
    | RecoverGrant(r: Record)
    | DropApproval(r: Record)
    | SaveGrant(r: Record, grant: Grant)
    | UnlinkJournal(r: Record)
    | LoadGrant(r: Record)
    | SaveIssued(r: Record, grant: Grant)
    | SendTask(r: Record, grant: Grant)
    | SaveApproved(r: Record, grant: Grant)
    | FindGrant(r: Record)
    | ReadGrant(r: Record)
    | FindJournal(r: Record)
    | RevokeSaveIssued(r: Record, grant: Grant)
    | RevokeRemote(r: Record)
    | Archive(r: Record)
    | SaveRevoked(r: Record)
    | Access(grant: Grant)
    | Ended
    | Failed

  datatype Situation = Situation(p: Process, w: World)

  predicate Final(p: Process) {
    p.Access? || p.Ended? || p.Failed?
  }

  predicate ValidMinutes(minutes: int) {
    0 < minutes <= 1440
  }

  function WithGrant(r: Record, g: Grant): Record {
    r.(state := Issued, delegation := Some(g.delegation),
       minutes := if r.approval.Some? then r.approval.value.minutes else r.minutes)
  }

  /** load_grant's checks on a grant file that could be read. */
  predicate GrantMatches(w: World, r: Record, g: Grant) {
    && r.approval.Some? && g.service == w.service && g.grantor == "@" + r.owner
    && g.key == r.approval.value.request.key && g.recipient == r.approval.value.request.recipient
  }

  function ChosenMinutes(r: Record, minutes: Option<int>): int {
    if minutes.Some? then minutes.value
    else if r.approval.Some? then r.approval.value.minutes
    else r.minutes
  }

  /** Everything `approve` requires before it first touches the server or the disk. */
  predicate Admits(w: World, call: Call)
    requires call.Approve?
  {
    var r, minutes := w.record, ChosenMinutes(w.record, call.minutes);
    && r.invite == call.invite && r.state != Revoked
    && call.request.grantor == "@" + call.handle && call.request.service == w.service
    && ValidMinutes(minutes)
    && (r.approval.Some? ==> r.approval.value == Approval(call.request, minutes))
  }

  function StartApprove(w: World, call: Call): Process
    requires call.Approve?
  {
    if !Admits(w, call) then Failed
    else if w.record.state == Invited then
      Mailboxes(w.record, Approval(call.request, ChosenMinutes(w.record, call.minutes)))
    else LoadGrant(w.record)
  }

  /** What a revocation does with the record it has read. */
  function StartRevoke(w: World): Process {
    var r := w.record;
    if r.delegation.Some? then RevokeRemote(r)
    else if r.approval.None? then SaveRevoked(r)
    else FindGrant(r)
  }

  /** The grant file and the journal are looked for one after the other. */
  function FindStep(p: Process, w: World): Process
    requires p.FindGrant? || p.ReadGrant? || p.FindJournal?
  {
    match p
    case FindGrant(r) => if w.grant.Some? then ReadGrant(r) else FindJournal(r)
    case ReadGrant(r) =>
      if w.grant.Some? && GrantMatches(w, r, w.grant.value) then RevokeSaveIssued(r, w.grant.value) else Failed
    case FindJournal(r) => if w.journal.Some? then Failed else SaveRevoked(r)
  }

  /** A committed request id replays its result; otherwise the server commits `made` under it. */
  function Commit(w: World, requestId: nat, made: Grant): World {
    if requestId in w.issued then w else w.(issued := w.issued[requestId := made])
  }

  /** One `identity.delegated_create` call. Only a definitive rejection unlinks the journal. */
  function CreateStep(p: Process, w: World, c: Choice): Situation
    requires p.Create?
  {
    match c.reply
    case Ok =>
      var after := Commit(w, p.requestId, c.grant);
      Situation(SaveGrant(p.r, after.issued[p.requestId]), after)
    case Uncertain(committed) =>
      Situation(Recover(p.r), if committed then Commit(w, p.requestId, c.grant) else w)
    case Rejected =>
      Situation(if p.requestId in w.issued then Recover(p.r) else DropJournal(p.r), w)
  }

  /**
   * Reuse the saved request id for the same intention, or save a new one first. A journal that
   * is gone when it is read, or when it is unlinked, ends the call.
   */
  function JournalStep(p: Process, w: World): Situation
    requires p.CheckJournal? || p.ReadJournal? || p.WriteJournal?
  {
    match p
    case CheckJournal(r, a) => Situation(if w.journal.Some? then ReadJournal(r, a) else WriteJournal(r, a), w)
    case ReadJournal(r, a) =>
      if w.journal.None? then Situation(Failed, w)
      else if w.journal.value.arguments == a then Situation(Create(r, a, w.journal.value.requestId), w)
      else Situation(Recover(r), w)
    case WriteJournal(r, a) =>
      Situation(Create(r, a, w.drawn), w.(journal := Some(Journal(a, w.drawn)), drawn := w.drawn + 1))
  }

  function UnlinkStep(p: Process, w: World): Situation
    requires p.DropJournal? || p.UnlinkJournal?
  {
    if w.journal.None? then Situation(Failed, w)
    else Situation(if p.DropJournal? then Recover(p.r) else LoadGrant(p.r), w.(journal := None))
  }

  /** The approval is let go only if neither journal nor grant file is found. */
  function RecoverStep(p: Process, w: World): Situation
    requires p.Recover? || p.RecoverGrant? || p.DropApproval?
  {
    match p
    case Recover(r) => Situation(if w.journal.Some? then Failed else RecoverGrant(r), w)
    case RecoverGrant(r) => Situation(if w.grant.Some? then Failed else DropApproval(r), w)
    case DropApproval(r) => Situation(Failed, w.(record := r.(approval := None)))
  }

  function LoadStep(p: Process, w: World): Process
    requires p.LoadGrant?
  {
    if w.grant.None? || !GrantMatches(w, p.r, w.grant.value) then Failed
    else if p.r.state == Invited then SaveIssued(p.r, w.grant.value)
    else if p.r.state == Issued then SendTask(p.r, w.grant.value)
    else Access(w.grant.value)
  }

  function RevokeStep(p: Process, w: World, c: Choice): Situation
    requires p.RevokeRemote?
  {
    var done := if p.r.delegation.Some? then w.(revoked := w.revoked + {p.r.delegation.value}) else w;
    match c.reply
    case Ok => Situation(Archive(p.r), done)
    case Uncertain(committed) => Situation(Failed, if committed then done else w)
    case Rejected => Situation(Failed, w)
  }

  function Step(p: Process, w: World, c: Choice): Situation {
    match p
    case Start(call) => Situation(if call.Approve? then StartApprove(w, call) else StartRevoke(w), w)
    case Mailboxes(r, approval) =>
      if c.reply != Ok then Situation(Failed, w)
      else
        var tails := if r.tails.Some? then r.tails else Some(c.tails);
        Situation(SaveApproval(r.(tails := tails, approval := Some(approval))), w)
    case SaveApproval(r) => Situation(CheckGrant(r), w.(record := r))
    case CheckGrant(r) => Situation(if w.grant.Some? then LoadGrant(r) else Resolve(r), w)
    case Resolve(r) =>
      if c.reply != Ok || r.approval.None? then Situation(Recover(r), w)
      else Situation(CheckJournal(r, Arguments(r.approval.value.request, c.scope, r.approval.value.minutes)), w)
    case CheckJournal(_, _) | ReadJournal(_, _) | WriteJournal(_, _) => JournalStep(p, w)
    case Create(_, _, _) => CreateStep(p, w, c)
    case DropJournal(_) | UnlinkJournal(_) => UnlinkStep(p, w)
    case Recover(_) | RecoverGrant(_) | DropApproval(_) => RecoverStep(p, w)
    case SaveGrant(r, g) => Situation(UnlinkJournal(r), w.(grant := Some(g)))
    case LoadGrant(_) => Situation(LoadStep(p, w), w)
    case SaveIssued(r, g) => Situation(SendTask(WithGrant(r, g), g), w.(record := WithGrant(r, g)))
    case SendTask(r, g) => Situation(if c.reply == Ok then SaveApproved(r, g) else Failed, w)
    case SaveApproved(r, g) => Situation(Access(g), w.(record := r.(state := Approved)))
    case FindGrant(_) | ReadGrant(_) | FindJournal(_) => Situation(FindStep(p, w), w)
    case RevokeSaveIssued(r, g) => Situation(RevokeRemote(WithGrant(r, g)), w.(record := WithGrant(r, g)))
    case RevokeRemote(_) => RevokeStep(p, w, c)
    case Archive(r) => Situation(if c.reply == Ok then SaveRevoked(r) else Failed, w)
    case SaveRevoked(r) => Situation(Ended, w.(record := r.(state := Revoked)))
    case _ => Situation(p, w)
  }

  /** A call scheduled for as long as the choices last. */
  function Run(p: Process, w: World, choices: seq<Choice>): Situation
    decreases |choices|
  {
    if choices == [] || Final(p) then Situation(p, w)
    else
      var next := Step(p, w, choices[0]);
      Run(next.p, next.w, choices[1..])
  }

  datatype Attempt = Attempt(call: Call, choices: seq<Choice>)

  /** Attempts one after the other, each running to its end or to its crash. */
  function History(w: World, attempts: seq<Attempt>): World
    decreases |attempts|
  {
    if attempts == [] then w
    else History(Run(Start(attempts[0].call), w, attempts[0].choices).w, attempts[1..])
  }

  function Invitation(service: nat, invite: nat, owner: string, minutes: int): World {
    World(service, Record(invite, owner, Invited, minutes, None, None, None), None, None, map[], {}, 0)
  }

  // ---------- what every step keeps ----------

  predicate AtMostOne(w: World) {
    forall a, b :: a in w.issued && b in w.issued ==> a == b
  }

  /** A committed delegation is in the grant file, or the journal still holds its request id. */
  predicate Recoverable(w: World) {
    forall id :: id in w.issued ==>
                   w.grant == Some(w.issued[id]) || (w.grant.None? && w.journal.Some? && w.journal.value.requestId == id)
  }

  predicate AllRevoked(w: World) {
    forall id :: id in w.issued ==> w.issued[id].delegation in w.revoked
  }

  predicate GrantIssued(w: World) {
    w.grant.Some? ==> exists id :: id in w.issued && w.issued[id] == w.grant.value
  }

  predicate IdsDrawn(w: World) {
    && (forall id :: id in w.issued ==> id < w.drawn)
    && (w.journal.Some? ==> w.journal.value.requestId < w.drawn)
  }

  predicate Intends(arguments: Arguments, approval: Approval) {
    arguments.request == approval.request && arguments.minutes == approval.minutes
  }

  predicate RecordFits(w: World) {
    var r := w.record;
    && (r.approval.None? ==> w.grant.None? && w.journal.None? && r.delegation.None?)
    && (r.delegation.Some? ==> w.grant.Some? && w.grant.value.delegation == r.delegation.value)
    && (r.state == Issued || r.state == Approved ==> r.delegation.Some?)
    && (r.approval.Some? ==> ValidMinutes(r.approval.value.minutes) && r.approval.value.request.service == w.service
                             && "@" <= r.approval.value.request.grantor)
    && (r.state == Invited ==> r.delegation.None?)
    && (w.journal.Some? && r.approval.Some? ==> Intends(w.journal.value.arguments, r.approval.value))
    && (r.state == Revoked && w.grant.Some? ==> r.delegation.Some?)
  }

  /** What holds on disk and server between any two steps. */
  predicate Sound(w: World) {
    && AtMostOne(w) && Recoverable(w) && GrantIssued(w) && IdsDrawn(w) && RecordFits(w)
    && (w.record.state == Revoked ==> AllRevoked(w)) && (w.record.state == Invited ==> w.revoked == {})
  }

  predicate Approving(r: Record, w: World) {
    w.record == r && r.state == Invited && r.approval.Some?
  }

  /** Where a lone call may stand in a world. */
  predicate Fits(p: Process, w: World) {
    match p
    case Mailboxes(r, a) =>
      && w.record == r && r.state == Invited && (r.approval.Some? ==> r.approval.value == a)
      && ValidMinutes(a.minutes) && a.request.service == w.service && "@" <= a.request.grantor
    case SaveApproval(r) =>
      && r == w.record.(tails := r.tails, approval := r.approval) && r.state == Invited && r.approval.Some?
      && (w.record.approval.Some? ==> w.record.approval == r.approval)
      && ValidMinutes(r.approval.value.minutes) && r.approval.value.request.service == w.service
      && "@" <= r.approval.value.request.grantor
    case CheckGrant(r) => Approving(r, w)
    case Resolve(r) => Approving(r, w) && w.grant.None?
    case CheckJournal(r, a) => Approving(r, w) && w.grant.None? && Intends(a, r.approval.value)
    case ReadJournal(r, a) => Approving(r, w) && w.grant.None? && Intends(a, r.approval.value) && w.journal.Some?
    case WriteJournal(r, a) => Approving(r, w) && w.grant.None? && Intends(a, r.approval.value) && w.journal.None?
    case Create(r, a, id) => Approving(r, w) && w.grant.None? && w.journal == Some(Journal(a, id))
    case DropJournal(r) => Approving(r, w) && w.grant.None? && w.journal.Some? && w.issued == map[]
    case Recover(r) => Approving(r, w) && w.grant.None?
    case RecoverGrant(r) => Approving(r, w) && w.grant.None? && w.journal.None?
    case DropApproval(r) => Approving(r, w) && w.grant.None? && w.journal.None?
    case SaveGrant(r, g) =>
      && Approving(r, w) && w.grant.None? && w.journal.Some?
      && w.journal.value.requestId in w.issued && w.issued[w.journal.value.requestId] == g
    case UnlinkJournal(r) => Approving(r, w) && w.grant.Some? && w.journal.Some?
    case LoadGrant(r) => w.record == r && r.state != Revoked && r.approval.Some?
    case SaveIssued(r, g) => Approving(r, w) && w.grant == Some(g)
    case SendTask(r, g) => w.record == r && r.state == Issued && w.grant == Some(g)
    case SaveApproved(r, g) => w.record == r && r.state == Issued && w.grant == Some(g)
    case FindGrant(r) => w.record == r && r.approval.Some? && r.delegation.None?
    case ReadGrant(r) => w.record == r && r.approval.Some? && r.delegation.None? && w.grant.Some?
    case FindJournal(r) => w.record == r && r.approval.Some? && r.delegation.None? && w.grant.None?
    case RevokeSaveIssued(r, g) => w.record == r && r.approval.Some? && r.delegation.None? && w.grant == Some(g)
    case RevokeRemote(r) => w.record == r && r.delegation.Some?
    case Archive(r) => w.record == r && r.delegation.Some? && AllRevoked(w)
    case SaveRevoked(r) => w.record == r && AllRevoked(w) && (w.grant.Some? ==> r.delegation.Some?)
    case _ => true
  }

  lemma StartKeeps(call: Call, w: World)
    requires Sound(w)
    ensures var p := if call.Approve? then StartApprove(w, call) else StartRevoke(w);
            Fits(p, w)
  {
  }

  lemma CreateKeeps(p: Process, w: World, c: Choice)
    requires p.Create? && Sound(w) && Fits(p, w)
    ensures Sound(CreateStep(p, w, c).w) && Fits(CreateStep(p, w, c).p, CreateStep(p, w, c).w)
  {
    if c.reply.Rejected? && p.requestId !in w.issued {
      assert w.issued == map[];
    }
  }

  lemma RevokeKeeps(p: Process, w: World, c: Choice)
    requires p.RevokeRemote? && Sound(w) && Fits(p, w)
    ensures Sound(RevokeStep(p, w, c).w) && Fits(RevokeStep(p, w, c).p, RevokeStep(p, w, c).w)
  {
  }

  predicate Kept(p: Process, w: World, c: Choice) {
    Sound(Step(p, w, c).w) && Fits(Step(p, w, c).p, Step(p, w, c).w)
  }

  lemma PrepareKeeps(p: Process, w: World, c: Choice)
    requires p.Mailboxes? || p.SaveApproval? || p.CheckGrant? || p.Resolve?
    requires Sound(w) && Fits(p, w)
    ensures Kept(p, w, c)
  {
    hide GrantMatches, Commit;
  }

  lemma IssueKeeps(p: Process, w: World, c: Choice)
    requires p.CheckJournal? || p.ReadJournal? || p.WriteJournal? || p.DropJournal? || p.Recover? || p.RecoverGrant? || p.DropApproval?
    requires Sound(w) && Fits(p, w)
    ensures Kept(p, w, c)
  {
    hide Admits, ChosenMinutes, Commit, StartApprove;
  }

  lemma GrantKeeps(p: Process, w: World, c: Choice)
    requires p.SaveGrant? || p.UnlinkJournal? || p.LoadGrant?
    requires Sound(w) && Fits(p, w)
    ensures Kept(p, w, c)
  {
    hide Admits, ChosenMinutes, Commit, StartApprove;
  }

  lemma FinishKeeps(p: Process, w: World, c: Choice)
    requires p.SaveIssued? || p.SendTask? || p.SaveApproved?
    requires Sound(w) && Fits(p, w)
    ensures Kept(p, w, c)
  {
    hide Admits, ChosenMinutes, Commit, StartApprove;
  }

  lemma FindingKeeps(p: Process, w: World, c: Choice)
    requires p.FindGrant? || p.ReadGrant? || p.FindJournal?
    requires Sound(w) && Fits(p, w)
    ensures Kept(p, w, c)
  {
    hide AtMostOne, GrantIssued, IdsDrawn, GrantMatches;
  }

  lemma RevokingKeeps(p: Process, w: World, c: Choice)
    requires p.RevokeSaveIssued? || p.Archive? || p.SaveRevoked?
    requires Sound(w) && Fits(p, w)
    ensures Kept(p, w, c)
  {
    hide Admits, ChosenMinutes, GrantMatches;
  }

  /** Every step of a lone call keeps what the disk and the server must satisfy. */
  lemma StepKeeps(p: Process, w: World, c: Choice)
    requires Sound(w) && Fits(p, w)
    ensures Kept(p, w, c)
  {
    if p.Start? {
      StartKeeps(p.call, w);
    } else if p.Create? {
      CreateKeeps(p, w, c);
    } else if p.RevokeRemote? {
      RevokeKeeps(p, w, c);
    } else {
      hide Sound, Fits, Kept;
      if p.Mailboxes? || p.SaveApproval? || p.CheckGrant? || p.Resolve? {
        PrepareKeeps(p, w, c);
      } else if p.CheckJournal? || p.ReadJournal? || p.WriteJournal? || p.DropJournal? || p.Recover? || p.RecoverGrant?
                || p.DropApproval? {
        IssueKeeps(p, w, c);
      } else if p.SaveGrant? || p.UnlinkJournal? || p.LoadGrant? {
        GrantKeeps(p, w, c);
      } else if p.SaveIssued? || p.SendTask? || p.SaveApproved? {
        FinishKeeps(p, w, c);
      } else if p.FindGrant? || p.ReadGrant? || p.FindJournal? {
        FindingKeeps(p, w, c);
      } else if !Final(p) {
        RevokingKeeps(p, w, c);
      } else {
        FinalKeeps(p, w, c);
      }
    }
  }

  lemma FinalKeeps(p: Process, w: World, c: Choice)
    requires Final(p) && Sound(w)
    ensures Kept(p, w, c)
  {
    hide Sound;
  }

  lemma {:induction false} RunKeeps(p: Process, w: World, choices: seq<Choice>)
    requires Sound(w) && Fits(p, w)
    ensures Sound(Run(p, w, choices).w) && Fits(Run(p, w, choices).p, Run(p, w, choices).w)
    decreases |choices|
  {
    hide Sound, Fits, Step;
    if choices != [] && !Final(p) {
      StepKeeps(p, w, choices[0]);
      var next := Step(p, w, choices[0]);
      assert Kept(p, w, choices[0]);
      RunKeeps(next.p, next.w, choices[1..]);
    }
  }

  lemma {:induction false} HistoryKeeps(w: World, attempts: seq<Attempt>)
    requires Sound(w)
    ensures Sound(History(w, attempts))
    decreases |attempts|
  {
    hide Sound, Run;
    if attempts != [] {
      var start := Start(attempts[0].call);
      RunKeeps(start, w, attempts[0].choices);
      HistoryKeeps(Run(start, w, attempts[0].choices).w, attempts[1..]);
    }
  }

  lemma InvitationSound(service: nat, invite: nat, owner: string, minutes: int)
    ensures Sound(Invitation(service, invite, owner, minutes))
  {
  }

  /**
   * Over every sequence of approvals and revocations of one invitation, with crashes and lost
   * replies anywhere: at most one delegation is committed, and once committed its grant is in
   * the grant file, or the journal holds the request id that replays it.
   */
  lemma OneDelegation(service: nat, invite: nat, owner: string, minutes: int, attempts: seq<Attempt>)
    ensures var w := History(Invitation(service, invite, owner, minutes), attempts);
            AtMostOne(w) && Recoverable(w) && (w.record.state == Revoked ==> AllRevoked(w))
  {
    hide Invitation, History;
    InvitationSound(service, invite, owner, minutes);
    HistoryKeeps(Invitation(service, invite, owner, minutes), attempts);
  }

  // ---------- revocation is final ----------

  /** The record says revoked, and stays so. */
  predicate Closed(p: Process, w: World) {
    && w.record.state == Revoked
    && (p.Start? || p.FindGrant? || p.FindJournal? || p.RevokeRemote? || p.Archive? || p.SaveRevoked? || Final(p))
    && (p.RevokeRemote? || p.Archive? || p.SaveRevoked? || p.FindGrant? || p.FindJournal? ==> p.r.state == Revoked)
  }

  lemma ClosedStep(p: Process, w: World, c: Choice)
    requires Sound(w) && Fits(p, w) && Closed(p, w)
    ensures Closed(Step(p, w, c).p, Step(p, w, c).w) && Step(p, w, c).w.issued == w.issued
    ensures w.revoked <= Step(p, w, c).w.revoked
  {
  }

  lemma {:induction false} ClosedRun(p: Process, w: World, choices: seq<Choice>)
    requires Sound(w) && Fits(p, w) && Closed(p, w)
    ensures var after := Run(p, w, choices);
            Sound(after.w) && after.w.record.state == Revoked && after.w.issued == w.issued && w.revoked <= after.w.revoked
    decreases |choices|
  {
    hide Sound, Fits, Step;
    if choices != [] && !Final(p) {
      StepKeeps(p, w, choices[0]);
      assert Kept(p, w, choices[0]);
      ClosedStep(p, w, choices[0]);
      var next := Step(p, w, choices[0]);
      ClosedRun(next.p, next.w, choices[1..]);
    }
  }

  /**
   * When a revocation has been recorded, every committed delegation is revoked, and whatever
   * is tried afterwards issues nothing and leaves the record revoked.
   */
  lemma {:induction false} RevokedIsFinal(w: World, attempts: seq<Attempt>)
    requires Sound(w) && w.record.state == Revoked
    ensures var after := History(w, attempts);
            after.issued == w.issued && after.record.state == Revoked && AllRevoked(after)
    decreases |attempts|
  {
    hide Run, Step, Recoverable, AtMostOne, GrantIssued, IdsDrawn, RecordFits, AllRevoked;
    if attempts != [] {
      var start := Start(attempts[0].call);
      ClosedRun(start, w, attempts[0].choices);
      RevokedIsFinal(Run(start, w, attempts[0].choices).w, attempts[1..]);
    }
  }

  lemma Unfold(p: Process, w: World, choices: seq<Choice>)
    requires choices != [] && !Final(p)
    ensures Run(p, w, choices) == Run(Step(p, w, choices[0]).p, Step(p, w, choices[0]).w, choices[1..])
  {
  }

  lemma RunFinal(p: Process, w: World, choices: seq<Choice>)
    requires Final(p)
    ensures Run(p, w, choices) == Situation(p, w)
  {
  }
}
