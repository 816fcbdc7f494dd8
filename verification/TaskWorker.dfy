/**
 * The worker's side of the task channel: each request pins its predecessor in a durable
 * journal entry before the record is created, so that a retry creates the same record.
 */
module TaskWorker {
  import opened Wrappers
  import opened TaskChannel

  datatype Intent = Intent(kind: Kind, message: nat, artifacts: seq<nat>)

  datatype Request = Request(id: nat, intent: Intent)

  /** A journal entry. The receipt is filled in once the created record was read back. */
  datatype Entry = Entry(intent: Intent, previous: Option<nat>, receipt: Option<nat>)

  /**
   * Journal, channel and server. `log[i]` is the request id that created `channel[i]`;
   * `others` counts listed items that are not records of this task.
   */
  datatype Desk = Desk(book: map<nat, Entry>, channel: seq<Record>, log: seq<nat>, next: nat, others: nat)

  /** How far one call gets before it crashes, fails or loses its reply. */
  datatype Fate = BeforeSave | BeforeSend | BeforeReceipt | Complete

  function LastOf(chain: seq<Record>): Option<nat> {
    if chain == [] then None else Some(chain[|chain| - 1].resource)
  }

  /** The entry a first call would make, if the reported status lets it proceed. */
  function Fresh(status: Status, items: nat, intent: Intent): Option<Entry> {
    if items > MAX_EVENTS || status.ambiguous || !Allows(status.state, intent.kind) then None
    else Some(Entry(intent, LastOf(status.chain), None))
  }

  /** The saved entry for this intention, or a new one. */
  function EntryFor(d: Desk, q: Request): Option<Entry> {
    if q.id in d.book then
      if d.book[q.id].intent == q.intent then Some(d.book[q.id]) else None
    else Fresh(Build(d.channel, Invited, None), |d.channel| + d.others, q.intent)
  }

  /** Only a delivery carries artifacts. */
  function Attached(intent: Intent): seq<nat> {
    if intent.kind == Deliver then intent.artifacts else []
  }

  function RecordOf(e: Entry, resource: nat): Record {
    Record(resource, e.intent.kind, e.previous, Attached(e.intent))
  }

  /** The server creates one record per request id and replays it afterwards. */
  function Created(d: Desk, id: nat, e: Entry): Desk {
    if id in d.log then d
    else d.(channel := d.channel + [RecordOf(e, d.next)], log := d.log + [id], next := d.next + 1)
  }

  function IndexOf(log: seq<nat>, id: nat): (i: nat)
    requires id in log
    ensures i < |log| && log[i] == id
  {
    if log[0] == id then 0 else 1 + IndexOf(log[1..], id)
  }

  /** The resource that the server's receipt for this request id names. */
  function ResourceOf(d: Desk, id: nat): nat
    requires id in d.log && |d.channel| == |d.log|
  {
    d.channel[IndexOf(d.log, id)].resource
  }

  /** The entry made durable before the call. */
  function Journaled(d: Desk, id: nat, e: Entry): Desk {
    d.(book := d.book[id := e])
  }

  /** The receipt made durable after the record was read back. */
  function Received(d: Desk, id: nat): Desk
    requires id in d.book && id in d.log && |d.channel| == |d.log|
  {
    d.(book := d.book[id := d.book[id].(receipt := Some(ResourceOf(d, id)))])
  }

  function Attempt(d: Desk, q: Request, f: Fate): (after: Desk)
    requires |d.channel| == |d.log|
    ensures |after.channel| == |after.log|
  {
    var e := EntryFor(d, q);
    if e.None? || f == BeforeSave then d
    else
      var saved := Journaled(d, q.id, e.value);
      if f == BeforeSend then saved
      else if f == BeforeReceipt then Created(saved, q.id, e.value)
      else Received(Created(saved, q.id, e.value), q.id)
  }

  // ---------- a linear channel reads back as itself ----------

  predicate Increasing(c: seq<Record>) {
    forall i, j :: 0 <= i < j < |c| ==> c[i].resource < c[j].resource
  }

  predicate Behind(previous: Option<nat>, c: seq<Record>) {
    previous.Some? ==> forall x <- c :: previous.value < x.resource
  }

  lemma {:induction false} NoCandidates(s: seq<Record>, state: State, previous: Option<nat>)
    requires forall x <- s :: x.previous != previous
    ensures Candidates(s, state, previous) == []
    decreases |s|
  {
    if s != [] {
      assert s[0] in s;
      assert forall x <- s[1..] :: x in s;
      NoCandidates(s[1..], state, previous);
    }
  }

  /** Nothing later in a linked chain pins what its first event pins. */
  lemma OnlyFirst(c: seq<Record>, state: State, previous: Option<nat>)
    requires c != [] && Linked(c, state, previous) && Increasing(c) && Behind(previous, c)
    ensures forall x <- c[1..] :: x.previous != previous
    ensures Increasing(c[1..]) && Behind(Some(c[0].resource), c[1..])
  {
    LinkedShape(c, state, previous);
    forall x | x in c[1..] ensures x.previous != previous && c[0].resource < x.resource {
      var i :| 0 <= i < |c| - 1 && c[1..][i] == x;
      assert x == c[i + 1] && c[i] in c;
    }
  }

  lemma {:induction false} LinearReads(c: seq<Record>, state: State, previous: Option<nat>)
    requires Linked(c, state, previous) && Increasing(c) && Behind(previous, c)
    ensures var b := Build(c, state, previous);
            b.chain == c && b.state == Reached(c, state) && !b.ambiguous && b.left == 0
    decreases |c|
  {
    hide Build, Behind, Increasing, Candidates, Without;
    BuildStep(c, state, previous);
    if c != [] {
      OnlyFirst(c, state, previous);
      FirstAlone(c[0], c[1..], state, previous);
      assert c == [c[0]] + c[1..];
      LinearReads(c[1..], After(c[0].kind), Some(c[0].resource));
    }
  }

  lemma {:induction false} LinkedMore(c: seq<Record>, state: State, previous: Option<nat>, x: Record)
    requires Linked(c, state, previous)
    requires Eligible(x, Reached(c, state), if c == [] then previous else LastOf(c))
    ensures Linked(c + [x], state, previous) && Reached(c + [x], state) == After(x.kind)
    decreases |c|
  {
    hide Eligible;
    if c == [] {
      assert c + [x] == [x];
      assert [x][1..] == [];
    } else {
      assert (c + [x])[1..] == c[1..] + [x];
      LinkedMore(c[1..], After(c[0].kind), Some(c[0].resource), x);
    }
  }

  /** A first event that alone pins its predecessor is the lone candidate. */
  lemma FirstAlone(head: Record, tail: seq<Record>, state: State, previous: Option<nat>)
    requires Eligible(head, state, previous) && forall z <- tail :: z.previous != previous
    ensures Candidates([head] + tail, state, previous) == [head] && Without([head] + tail, head) == tail
  {
    NoCandidates(tail, state, previous);
    assert ([head] + tail)[1..] == tail;
  }

  lemma TwoCandidates(x: Record, y: Record, state: State, previous: Option<nat>)
    requires Eligible(x, state, previous) && Eligible(y, state, previous)
    ensures Candidates([x, y], state, previous) == [x, y]
  {
    assert Candidates([y], state, previous) == [y];
    assert [x, y][1..] == [y];
  }

  /** Two successors of the last event make the channel ambiguous. */
  lemma {:induction false} ForkReads(c: seq<Record>, state: State, previous: Option<nat>, x: Record, y: Record)
    requires Linked(c, state, previous) && Increasing(c + [x, y]) && Behind(previous, c + [x, y])
    requires Eligible(x, Reached(c, state), if c == [] then previous else LastOf(c))
    requires Eligible(y, Reached(c, state), if c == [] then previous else LastOf(c))
    ensures Build(c + [x, y], state, previous).ambiguous
    decreases |c|
  {
    hide Build, Behind, Increasing, Candidates, Without;
    BuildStep(c + [x, y], state, previous);
    if c == [] {
      assert c + [x, y] == [x, y];
      TwoCandidates(x, y, state, previous);
    } else {
      ForkTail(c, state, previous, x, y);
      FirstAlone(c[0], c[1..] + [x, y], state, previous);
      assert c + [x, y] == [c[0]] + (c[1..] + [x, y]);
      ForkReads(c[1..], After(c[0].kind), Some(c[0].resource), x, y);
    }
  }

  lemma ForkTail(c: seq<Record>, state: State, previous: Option<nat>, x: Record, y: Record)
    requires c != [] && Linked(c, state, previous) && Increasing(c + [x, y]) && Behind(previous, c + [x, y])
    requires x.previous == LastOf(c) && y.previous == LastOf(c)
    ensures forall z <- c[1..] + [x, y] :: z.previous != previous
    ensures Increasing(c[1..] + [x, y]) && Behind(Some(c[0].resource), c[1..] + [x, y])
  {
    ForkOrder(c, previous, [x, y]);
    OnlyFirst(c, state, previous);
    LastIsNot(c, previous);
    hide Increasing, Linked, Behind, LastOf;
    NonePins(c[1..], [x, y], previous);
  }

  lemma NonePins(s: seq<Record>, t: seq<Record>, previous: Option<nat>)
    requires (forall z <- s :: z.previous != previous) && (forall z <- t :: z.previous != previous)
    ensures forall z <- s + t :: z.previous != previous
  {
  }

  lemma LastIsNot(c: seq<Record>, previous: Option<nat>)
    requires c != [] && Behind(previous, c)
    ensures LastOf(c) != previous
  {
    assert c[|c| - 1] in c;
  }

  lemma ForkOrder(c: seq<Record>, previous: Option<nat>, more: seq<Record>)
    requires c != [] && Increasing(c + more) && Behind(previous, c + more)
    ensures Increasing(c) && Behind(previous, c)
    ensures Increasing(c[1..] + more) && Behind(Some(c[0].resource), c[1..] + more)
  {
    var all := c + more;
    assert all[1..] == c[1..] + more;
    assert forall i :: 0 <= i < |c| ==> all[i] == c[i];
    assert forall z <- c :: z in all;
    forall z | z in all[1..] ensures c[0].resource < z.resource {
      var i :| 0 <= i < |all| - 1 && all[1..][i] == z;
      assert all[0].resource < all[i + 1].resource;
    }
  }

  // ---------- what a disciplined worker keeps ----------

  predicate Unique(log: seq<nat>) {
    forall i, j :: 0 <= i < j < |log| ==> log[i] != log[j]
  }

  /** The channel is one linked chain of increasing resources, one record per request id. */
  predicate Line(channel: seq<Record>, log: seq<nat>, next: nat) {
    && |channel| == |log| && Unique(log) && Increasing(channel) && Linked(channel, Invited, None)
    && forall x <- channel :: x.resource < next
  }

  /** Each record was made from the entry of its own request id. */
  predicate MadeFrom(book: map<nat, Entry>, channel: seq<Record>, log: seq<nat>)
    requires |channel| == |log|
  {
    forall i :: 0 <= i < |log| ==> log[i] in book && channel[i] == RecordOf(book[log[i]], channel[i].resource)
  }

  /** A pinned entry whose record does not exist yet may be created right after the last record. */
  predicate PinsLast(book: map<nat, Entry>, channel: seq<Record>, log: seq<nat>) {
    forall id :: id in book && id !in log ==>
      book[id].previous == LastOf(channel) && Allows(Reached(channel, Invited), book[id].intent.kind)
  }

  predicate OnePending(book: map<nat, Entry>, log: seq<nat>) {
    forall a, b :: a in book && b in book && a !in log && b !in log ==> a == b
  }

  predicate Receipts(book: map<nat, Entry>, log: seq<nat>) {
    forall id :: id in book && book[id].receipt.Some? ==> id in log
  }

  predicate AllIn(book: map<nat, Entry>, log: seq<nat>) {
    forall id :: id in book ==> id in log
  }

  /** Every journaled request has its record. */
  predicate Settled(d: Desk) {
    AllIn(d.book, d.log)
  }

  predicate Orderly(d: Desk) {
    && Line(d.channel, d.log, d.next) && MadeFrom(d.book, d.channel, d.log) && PinsLast(d.book, d.channel, d.log)
    && OnePending(d.book, d.log) && Receipts(d.book, d.log)
  }

  /** The discipline: a new request is started only when every earlier one has its record. */
  predicate MayStart(d: Desk, q: Request) {
    q.id in d.book || Settled(d)
  }

  lemma LineReads(channel: seq<Record>, log: seq<nat>, next: nat)
    requires Line(channel, log, next)
    ensures |channel| == |log| && Unique(log) && Linked(channel, Invited, None) && Increasing(channel)
    ensures var b := Build(channel, Invited, None);
            b.chain == channel && b.state == Reached(channel, Invited) && !b.ambiguous && b.left == 0
  {
    hide Build;
    LinearReads(channel, Invited, None);
  }

  lemma LogInBook(book: map<nat, Entry>, channel: seq<Record>, log: seq<nat>, id: nat)
    requires |channel| == |log| && MadeFrom(book, channel, log) && id in log
    ensures id in book
  {
    var i := IndexOf(log, id);
    assert log[i] in book;
  }

  /** Journaling a new entry when everything earlier has its record. */
  lemma JournalNew(d: Desk, id: nat, e: Entry)
    requires Orderly(d) && Settled(d) && id !in d.book && e.receipt.None?
    requires e.previous == LastOf(d.channel) && Allows(Reached(d.channel, Invited), e.intent.kind)
    ensures Orderly(Journaled(d, id, e)) && id !in d.log
  {
    hide Line, Allows, Reached, LastOf;
    if id in d.log { LogInBook(d.book, d.channel, d.log, id); }
  }

  lemma SavedOrderly(d: Desk, q: Request, e: Entry)
    requires Orderly(d) && MayStart(d, q) && EntryFor(d, q) == Some(e)
    ensures Orderly(Journaled(d, q.id, e)) && (e.receipt.Some? ==> q.id in d.log)
    ensures q.id !in d.book ==> q.id !in d.log
  {
    if q.id in d.book {
      assert d.book[q.id := e] == d.book;
      hide Line, MadeFrom, PinsLast, OnePending;
    } else {
      LineReads(d.channel, d.log, d.next);
      hide Build, Orderly, Settled;
      JournalNew(d, q.id, e);
    }
  }

  lemma LineGrows(channel: seq<Record>, log: seq<nat>, next: nat, x: Record, id: nat)
    requires Line(channel, log, next) && id !in log && x.resource == next
    requires x.previous == LastOf(channel) && Allows(Reached(channel, Invited), x.kind)
    ensures Line(channel + [x], log + [id], next + 1)
  {
    LinkedMore(channel, Invited, None, x);
    hide Linked, Reached;
  }

  lemma MadeGrows(book: map<nat, Entry>, channel: seq<Record>, log: seq<nat>, id: nat, resource: nat)
    requires |channel| == |log| && id in book && MadeFrom(book, channel, log)
    ensures MadeFrom(book, channel + [RecordOf(book[id], resource)], log + [id])
  {
  }

  lemma SettledGrows(book: map<nat, Entry>, channel: seq<Record>, log: seq<nat>, id: nat)
    requires OnePending(book, log) && id in book && id !in log
    ensures AllIn(book, log + [id])
  {
  }

  lemma AllInMeans(book: map<nat, Entry>, channel: seq<Record>, log: seq<nat>)
    requires AllIn(book, log)
    ensures OnePending(book, log) && PinsLast(book, channel, log) && Receipts(book, log)
  {
  }

  lemma CreatedOrderly(d: Desk, id: nat, e: Entry)
    requires Orderly(d) && id in d.book && d.book[id] == e
    ensures Orderly(Created(d, id, e)) && id in Created(d, id, e).log
  {
    if id !in d.log {
      var x := RecordOf(e, d.next);
      assert x.previous == LastOf(d.channel) && Allows(Reached(d.channel, Invited), x.kind);
      hide Line, MadeFrom, PinsLast, OnePending, Receipts, LastOf, Reached;
      LineLengths(d);
      LineGrows(d.channel, d.log, d.next, x, id);
      MadeGrows(d.book, d.channel, d.log, id, d.next);
      SettledGrows(d.book, d.channel, d.log, id);
      AllInMeans(d.book, d.channel + [x], d.log + [id]);
      assert id in d.log + [id];
    }
  }

  lemma LineLengths(d: Desk)
    requires Line(d.channel, d.log, d.next)
    ensures |d.channel| == |d.log|
  {
  }

  lemma ReceiptOrderly(d: Desk, id: nat)
    requires Orderly(d) && id in d.log
    ensures |d.channel| == |d.log| && id in d.book && Orderly(Received(d, id))
  {
    LineLengths(d);
    LogInBook(d.book, d.channel, d.log, id);
    hide Line, LastOf, Allows, Reached;
  }

  lemma JournaledHolds(d: Desk, id: nat, e: Entry)
    ensures var saved := Journaled(d, id, e);
            id in saved.book && saved.book[id] == e && saved.log == d.log && saved.channel == d.channel
  {
  }

  /** One disciplined call keeps the channel in order; it adds at most its own record, at the end. */
  lemma AttemptOrderly(d: Desk, q: Request, f: Fate)
    requires Orderly(d) && MayStart(d, q)
    ensures |d.channel| == |d.log| && Orderly(Attempt(d, q, f))
  {
    hide Orderly, MayStart, Created, EntryFor, Journaled, Received;
    OrderlyLengths(d);
    var e := EntryFor(d, q);
    if e.Some? && f != BeforeSave {
      SavedOrderly(d, q, e.value);
      JournaledHolds(d, q.id, e.value);
      CreatedOrderly(Journaled(d, q.id, e.value), q.id, e.value);
      ReceiptOrderly(Created(Journaled(d, q.id, e.value), q.id, e.value), q.id);
    }
  }

  lemma AttemptAdds(d: Desk, q: Request, f: Fate)
    requires |d.channel| == |d.log|
    ensures var after := Attempt(d, q, f);
            && after.log == (if q.id in after.log && q.id !in d.log then d.log + [q.id] else d.log)
            && (q.id in after.book || after == d)
            && (forall id :: id in after.book && id != q.id ==> id in d.book)
  {
    hide Build, Created, EntryFor, IndexOf;
    var e := EntryFor(d, q);
    if e.Some? {
      CreatedLog(Journaled(d, q.id, e.value), q.id, e.value);
    }
  }

  lemma ReceiptsMean(d: Desk, id: nat)
    requires Orderly(d) && id in d.book && d.book[id].receipt.Some?
    ensures id in d.log
  {
  }

  lemma CreatedLog(d: Desk, id: nat, e: Entry)
    ensures Created(d, id, e).log == if id in d.log then d.log else d.log + [id]
    ensures d.channel <= Created(d, id, e).channel && Created(d, id, e).book == d.book
  {
  }

  // ---------- whole runs ----------

  /** One request with the fates of its calls, tried in turn. */
  datatype Job = Job(request: Request, fates: seq<Fate>)

  predicate Unfinished(d: Desk, id: nat) {
    id in d.book && d.book[id].receipt.None?
  }

  function Persist(d: Desk, q: Request, fates: seq<Fate>): (after: Desk)
    requires |d.channel| == |d.log|
    ensures |after.channel| == |after.log|
    decreases |fates|
  {
    if fates == [] then d else Persist(Attempt(d, q, fates[0]), q, fates[1..])
  }

  /** Jobs one after the other; the next is started only once the last has its receipt or was refused. */
  function Work(d: Desk, jobs: seq<Job>): (after: Desk)
    requires |d.channel| == |d.log|
    ensures |after.channel| == |after.log|
    decreases |jobs|
  {
    if jobs == [] then d
    else
      var next := Persist(d, jobs[0].request, jobs[0].fates);
      if Unfinished(next, jobs[0].request.id) then next else Work(next, jobs[1..])
  }

  lemma {:induction false} PersistOrderly(d: Desk, q: Request, fates: seq<Fate>)
    requires Orderly(d) && MayStart(d, q)
    ensures var after := Persist(d, q, fates);
            && Orderly(after) && MayStart(after, q)
            && after.log == (if q.id in after.log && q.id !in d.log then d.log + [q.id] else d.log)
            && (forall id :: id in after.book && id != q.id ==> id in d.book)
    decreases |fates|
  {
    hide Orderly, Attempt, Settled;
    OrderlyLengths(d);
    if fates != [] {
      AttemptOrderly(d, q, fates[0]);
      AttemptAdds(d, q, fates[0]);
      PersistOrderly(Attempt(d, q, fates[0]), q, fates[1..]);
    }
  }

  lemma OrderlyLengths(d: Desk)
    requires Orderly(d)
    ensures |d.channel| == |d.log|
  {
  }

  /** After a job that is not left unfinished, everything journaled has its record. */
  lemma JobSettles(d: Desk, q: Request, fates: seq<Fate>)
    requires Orderly(d) && Settled(d)
    ensures |d.channel| == |d.log| && !Unfinished(Persist(d, q, fates), q.id) ==> Settled(Persist(d, q, fates))
  {
    PersistOrderly(d, q, fates);
    var after := Persist(d, q, fates);
    if !Unfinished(after, q.id) {
      hide Persist;
      forall id | id in after.book ensures id in after.log {
        if id == q.id { ReceiptsMean(after, id); } else { assert id in d.log; }
      }
    }
  }

  function Ids(jobs: seq<Job>): seq<nat> {
    if jobs == [] then [] else [jobs[0].request.id] + Ids(jobs[1..])
  }

  function Those(ids: seq<nat>, log: seq<nat>): seq<nat> {
    if ids == [] then []
    else if ids[0] in log then [ids[0]] + Those(ids[1..], log)
    else Those(ids[1..], log)
  }

  lemma {:induction false} ThoseNone(ids: seq<nat>, log: seq<nat>)
    requires forall id <- ids :: id !in log
    ensures Those(ids, log) == []
    decreases |ids|
  {
    if ids != [] {
      assert ids[0] in ids;
      assert forall id <- ids[1..] :: id in ids;
      ThoseNone(ids[1..], log);
    }
  }

  lemma IdsStep(jobs: seq<Job>)
    requires jobs != [] && Unique(Ids(jobs))
    ensures var id, rest := jobs[0].request.id, Ids(jobs[1..]);
            Ids(jobs) == [id] + rest && id !in rest && Unique(rest)
  {
    var id, rest := jobs[0].request.id, Ids(jobs[1..]);
    assert Ids(jobs)[1..] == rest;
  }

  lemma ThoseStep(id: nat, rest: seq<nat>, log: seq<nat>)
    ensures Those([id] + rest, log) == if id in log then [id] + Those(rest, log) else Those(rest, log)
  {
    assert ([id] + rest)[1..] == rest;
  }

  lemma {:induction false} WorkOrderly(d: Desk, jobs: seq<Job>)
    requires Orderly(d) && Settled(d) && Unique(Ids(jobs)) && forall id <- Ids(jobs) :: id !in d.log
    ensures |d.channel| == |d.log|
    ensures var after := Work(d, jobs); Orderly(after) && after.log == d.log + Those(Ids(jobs), after.log)
    decreases |jobs|
  {
    hide Orderly, Settled, Persist, Those, Ids, Unique;
    OrderlyLengths(d);
    if jobs == [] {
      NoIds(d.log);
    } else {
      var q, rest := jobs[0].request, jobs[1..];
      var next := Persist(d, q, jobs[0].fates);
      IdsStep(jobs);
      PersistOrderly(d, q, jobs[0].fates);
      JobSettles(d, q, jobs[0].fates);
      OrderlyLengths(next);
      if Unfinished(next, q.id) {
        ThoseNone(Ids(rest), next.log);
        ThoseStep(q.id, Ids(rest), next.log);
      } else {
        WorkOrderly(next, rest);
        WorkLog(d.log, next.log, Work(next, rest).log, q.id, Ids(rest));
      }
    }
  }

  lemma NoIds(log: seq<nat>)
    ensures Those(Ids([]), log) == [] && log + [] == log
  {
  }

  lemma WorkLog(before: seq<nat>, mid: seq<nat>, after: seq<nat>, id: nat, rest: seq<nat>)
    requires mid == (if id in mid && id !in before then before + [id] else before) && id !in before && id !in rest
    requires after == mid + Those(rest, after)
    ensures after == before + Those([id] + rest, after)
  {
    hide Those;
    ThoseStep(id, rest, after);
    SkippedStays(rest, after, id);
    if id in mid {
      assert after == before + ([id] + Those(rest, after));
    } else {
      assert id !in after;
    }
  }

  lemma {:induction false} SkippedStays(ids: seq<nat>, log: seq<nat>, id: nat)
    requires id !in ids
    ensures id !in Those(ids, log)
    decreases |ids|
  {
    if ids != [] { SkippedStays(ids[1..], log, id); }
  }

  /** A listing of the channel, in any order and with everything else that lies there. */
  predicate Lists(items: seq<Item>, d: Desk) {
    multiset(Records(items)) == multiset(d.channel) && |items| == |d.channel| + d.others
  }

  /**
   * A worker that finishes each request before the next, over any crashes and lost replies: the
   * channel holds exactly one record per committed request, in job order and with that request's
   * content. In whatever order it is listed, `get` reports all of them, in order, with no fork
   * and nothing ignored but what is not of this task, if and only if the listing is within its
   * limit; beyond that it refuses.
   */
  lemma FinishBeforeNext(others: nat, jobs: seq<Job>, items: seq<Item>)
    requires Unique(Ids(jobs)) && Lists(items, Work(Desk(map[], [], [], 0, others), jobs))
    ensures var after := Work(Desk(map[], [], [], 0, others), jobs);
            && Unique(after.log) && after.log == Those(Ids(jobs), after.log)
            && |after.channel| == |after.log| && MadeFrom(after.book, after.channel, after.log)
            && (Reported(items).Some? <==> |after.channel| + others <= MAX_EVENTS)
            && (Reported(items).Some? ==>
                  var report := Reported(items).value;
                  report.events == Events(after.channel) && !report.ambiguous && report.ignored == others)
  {
    hide Build, Work, Records, Events;
    var start := Desk(map[], [], [], 0, others);
    WorkOrderly(start, jobs);
    var after := Work(start, jobs);
    WorkOthers(start, jobs);
    OrderIrrelevant(Records(items), after.channel, Invited, None);
    LinearReads(after.channel, Invited, None);
    SameSize(Records(items), after.channel);
    assert [] + Those(Ids(jobs), after.log) == Those(Ids(jobs), after.log);
  }

  lemma SameSize(r: seq<Record>, s: seq<Record>)
    requires multiset(r) == multiset(s)
    ensures |r| == |s|
  {
    assert |multiset(r)| == |r| && |multiset(s)| == |s|;
  }

  lemma {:induction false} PersistOthers(d: Desk, q: Request, fates: seq<Fate>)
    requires |d.channel| == |d.log|
    ensures Persist(d, q, fates).others == d.others && |Persist(d, q, fates).channel| >= |d.channel|
    decreases |fates|
  {
    if fates != [] { PersistOthers(Attempt(d, q, fates[0]), q, fates[1..]); }
  }

  lemma {:induction false} WorkOthers(d: Desk, jobs: seq<Job>)
    requires |d.channel| == |d.log|
    ensures Work(d, jobs).others == d.others && |Work(d, jobs).channel| >= |d.channel|
    decreases |jobs|
  {
    hide Persist;
    if jobs != [] {
      var next := Persist(d, jobs[0].request, jobs[0].fates);
      PersistOthers(d, jobs[0].request, jobs[0].fates);
      if !Unfinished(next, jobs[0].request.id) { WorkOthers(next, jobs[1..]); }
    }
  }

  /**
   * The limit is checked before a record is added: the request that finds the channel at exactly
   * MAX_EVENTS items is still admitted, and from then on, whatever is done, `get` refuses.
   */
  lemma LimitPassedIff(d: Desk, q: Request, jobs: seq<Job>, items: seq<Item>)
    requires Orderly(d) && q.id !in d.book && EntryFor(d, q).Some?
    ensures |d.channel| == |d.log|
    ensures var after := Attempt(d, q, Complete);
            && (|after.channel| + after.others > MAX_EVENTS <==> |d.channel| + d.others == MAX_EVENTS)
            && (|d.channel| + d.others == MAX_EVENTS && Lists(items, Work(after, jobs)) ==> Reported(items) == None)
  {
    AttemptAdds(d, q, Complete);
    WorkOthers(Attempt(d, q, Complete), jobs);
    hide Build, Work, Records, Linked;
  }

  /** Where the limit is passed: the channel holds 200 other items, and one acceptance is sent. */
  lemma LimitPassed(items: seq<Item>)
    ensures var start, q := Desk(map[], [], [], 0, MAX_EVENTS), Request(0, Intent(Accept, 0, []));
            var after := Work(start, [Job(q, [Complete])]);
            |after.channel| == 1 && (Lists(items, after) ==> Reported(items) == None)
  {
    var start, q := Desk(map[], [], [], 0, MAX_EVENTS), Request(0, Intent(Accept, 0, []));
    assert Build([], Invited, None).chain == [];
    var after := Attempt(start, q, Complete);
    assert after.channel == [RecordOf(Entry(q.intent, None, None), 0)];
    PersistOne(start, q);
    assert Work(after, []) == after;
    hide Attempt, Records;
  }

  lemma PersistOne(d: Desk, q: Request)
    requires |d.channel| == |d.log|
    ensures Persist(d, q, [Complete]) == Attempt(d, q, Complete)
  {
    assert Persist(Attempt(d, q, Complete), q, []) == Attempt(d, q, Complete);
  }

  // ---------- why the discipline is needed ----------

  /**
   * One request `a` may be pending while another, `b`, is started and completed, and then `a`
   * is retried. The channel becomes ambiguous exactly when `a` had been journaled but not created.
   */
  lemma AbandonedForksIff(d: Desk, a: nat, b: Request)
    requires Orderly(d) && a in d.book && b.id !in d.book
    requires forall id :: id in d.book && id !in d.log ==> id == a
    requires EntryFor(d, b).Some?
    ensures var after := Attempt(Attempt(d, b, Complete), Request(a, d.book[a].intent), Complete);
            Build(after.channel, Invited, None).ambiguous <==> a !in d.log
  {
    var q := Request(a, d.book[a].intent);
    LinearReads(d.channel, Invited, None);
    hide Build, Linked, Reached;
    if a in d.log {
      SettledOrderly(d, b, q);
    } else {
      AbandonedRecords(d, a, b);
      var x := RecordOf(EntryFor(d, b).value, d.next);
      var y := RecordOf(d.book[a], d.next + 1);
      ForkReads(d.channel, Invited, None, x, y);
    }
  }

  lemma SettledOrderly(d: Desk, b: Request, q: Request)
    requires Orderly(d) && Settled(d) && q.id in d.book && b.id !in d.book
    ensures |d.channel| == |d.log| && !Build(Attempt(Attempt(d, b, Complete), q, Complete).channel, Invited, None).ambiguous
  {
    hide Attempt, Build;
    AttemptOrderly(d, b, Complete);
    AttemptAdds(d, b, Complete);
    var mid := Attempt(d, b, Complete);
    var i :| 0 <= i < |d.log| && d.log[i] == q.id;
    assert q.id in mid.log;
    var k :| 0 <= k < |mid.log| && mid.log[k] == q.id;
    assert mid.log[k] in mid.book;
    AttemptOrderly(mid, q, Complete);
    LinearReads(Attempt(mid, q, Complete).channel, Invited, None);
  }

  /** A completed call for a request without a record appends exactly its record. */
  lemma CompleteAppends(d: Desk, q: Request)
    requires |d.channel| == |d.log| && EntryFor(d, q).Some? && q.id !in d.log
    ensures var e, after := EntryFor(d, q).value, Attempt(d, q, Complete);
            && after.channel == d.channel + [RecordOf(e, d.next)] && after.log == d.log + [q.id] && after.next == d.next + 1
            && (forall id :: id in d.book && id != q.id ==> id in after.book && after.book[id] == d.book[id])
  {
    hide EntryFor, IndexOf, RecordOf;
  }

  lemma TwoMore(c: seq<Record>, next: nat, x: Record, y: Record)
    requires Increasing(c) && (forall z <- c :: z.resource < next) && x.resource == next && y.resource == next + 1
    ensures Increasing(c + [x, y]) && c + [x] + [y] == c + [x, y]
  {
  }

  lemma AbandonedRecords(d: Desk, a: nat, b: Request)
    requires Orderly(d) && a in d.book && a !in d.log && b.id !in d.book && EntryFor(d, b).Some?
    ensures var after := Attempt(Attempt(d, b, Complete), Request(a, d.book[a].intent), Complete);
            var x, y := RecordOf(EntryFor(d, b).value, d.next), RecordOf(d.book[a], d.next + 1);
            after.channel == d.channel + [x, y] && Increasing(after.channel)
  {
    if b.id in d.log { LogInBook(d.book, d.channel, d.log, b.id); }
    var mid, q := Attempt(d, b, Complete), Request(a, d.book[a].intent);
    CompleteAppends(d, b);
    assert EntryFor(mid, q) == Some(d.book[a]);
    TwoMore(d.channel, d.next, RecordOf(EntryFor(d, b).value, d.next), RecordOf(d.book[a], d.next + 1));
    hide Attempt, EntryFor, Increasing, Orderly;
    CompleteAppends(mid, q);
  }

  // ---------- the call as it runs ----------

  class Worker {
    var book: map<nat, Entry>
    var channel: seq<Record>
    var log: seq<nat>
    var next: nat
    const others: nat

    function View(): Desk
      reads this
    {
      Desk(book, channel, log, next, others)
    }

    constructor (others: nat)
      ensures View() == Desk(map[], [], [], 0, others)
    {
      this.others := others;
      book, channel, log, next := map[], [], [], 0;
    }

    /** One call. `items` is the listing the server returns, in any order. */
    method Send(q: Request, items: seq<Item>, f: Fate) returns (receipt: Option<nat>)
      requires |channel| == |log|
      requires multiset(Records(items)) == multiset(channel) && |items| == |channel| + others
      modifies this
      ensures |channel| == |log| && View() == Attempt(old(View()), q, f)
      ensures receipt.Some? <==> f == Complete && EntryFor(old(View()), q).Some?
      ensures receipt.Some? ==> q.id in log && receipt.value == ResourceOf(View(), q.id)
      ensures receipt.Some? ==> q.id in book && book[q.id].intent == q.intent && book[q.id].receipt == receipt
      ensures q.id in old(book) && old(book[q.id].intent) != q.intent ==> receipt.None? && View() == old(View())
      ensures q.id !in old(book) ==>
                var report := Reported(items);
                var admitted := && report.Some? && !report.value.ambiguous
                                && (if q.intent.kind == Accept then report.value.state == Invited
                                    else report.value.state == Accepted || report.value.state == InProgress);
                && (admitted && f != BeforeSave ==>
                      && q.id in book && book[q.id].intent == q.intent
                      && book[q.id].previous == (var events := report.value.events;
                                                 if events == [] then None else Some(events[|events| - 1].resource)))
                && (!admitted ==> receipt.None? && View() == old(View()))
      ensures f == BeforeSave || f == BeforeSend ==> channel == old(channel) && log == old(log)
      ensures (f == Complete || f == BeforeReceipt) && q.id in book && book[q.id].intent == q.intent ==> q.id in log
      ensures f == Complete || f == BeforeReceipt ==>
                && old(channel) <= channel && |channel| <= |old(channel)| + 1
                && (|channel| > |old(channel)| ==>
                      var x := channel[|old(channel)|];
                      && q.id !in old(log) && log == old(log) + [q.id] && q.id in book
                      && x.kind == q.intent.kind && x.previous == book[q.id].previous
                      && x.artifacts == if q.intent.kind == Deliver then q.intent.artifacts else [])
    {
      hide Build, Records, Candidates, IndexOf, Created, Received, Journaled, Attempt, EntryFor, ResourceOf, RecordOf;
      AttemptMeans(View(), q, f);
      var entry := Prepare(q, items);
      if entry.None? || f == BeforeSave { return None; }
      receipt := Write(q, entry.value, f);
    }

    /** The saved entry for this intention, or a new one that pins the last event reported. */
    method Prepare(q: Request, items: seq<Item>) returns (entry: Option<Entry>)
      requires |channel| == |log|
      requires multiset(Records(items)) == multiset(channel) && |items| == |channel| + others
      ensures entry == EntryFor(View(), q)
      ensures q.id in book ==> entry == if book[q.id].intent == q.intent then Some(book[q.id]) else None
      ensures q.id !in book ==>
                var report := Reported(items);
                var admitted := && report.Some? && !report.value.ambiguous
                                && (if q.intent.kind == Accept then report.value.state == Invited
                                    else report.value.state == Accepted || report.value.state == InProgress);
                if admitted then
                  entry == Some(Entry(q.intent, var events := report.value.events;
                                                if events == [] then None else Some(events[|events| - 1].resource), None))
                else entry == None
    {
      hide Build, Records, Candidates;
      if q.id in book {
        return if book[q.id].intent == q.intent then Some(book[q.id]) else None;
      }
      var report := Get(items);
      OrderIrrelevant(Records(items), channel, Invited, None);
      ghost var chain := Build(Records(items), Invited, None).chain;
      EventsLast(chain);
      if report.None? || report.value.ambiguous || !Allows(report.value.state, q.intent.kind) { return None; }
      var events := report.value.events;
      return Some(Entry(q.intent, if events == [] then None else Some(events[|events| - 1].resource), None));
    }

    /** _write: the entry is durable before the record is created, and the receipt after it was read back. */
    method Write(q: Request, entry: Entry, f: Fate) returns (receipt: Option<nat>)
      requires |channel| == |log| && entry.intent == q.intent && f != BeforeSave
      modifies this
      ensures |channel| == |log| && (receipt.Some? <==> f == Complete)
      ensures var saved := Journaled(old(View()), q.id, entry);
              View() == if f == BeforeSend then saved
                        else if f == BeforeReceipt then Created(saved, q.id, entry)
                        else Received(Created(saved, q.id, entry), q.id)
      ensures receipt.Some? ==> q.id in log && receipt.value == ResourceOf(View(), q.id)
      ensures q.id in book && book[q.id].intent == entry.intent && book[q.id].previous == entry.previous
      ensures receipt.Some? ==> book[q.id].receipt == receipt
      ensures f == BeforeSend ==> channel == old(channel) && log == old(log)
      ensures f != BeforeSend ==>
                && q.id in log && old(channel) <= channel && |channel| <= |old(channel)| + 1
                && (|channel| > |old(channel)| ==>
                      var x := channel[|old(channel)|];
                      && q.id !in old(log) && log == old(log) + [q.id]
                      && x.kind == q.intent.kind && x.previous == entry.previous
                      && x.artifacts == if q.intent.kind == Deliver then q.intent.artifacts else [])
    {
      hide IndexOf;
      receipt := None;
      book := book[q.id := entry];
      if f == BeforeSend { return; }
      if q.id !in log {
        channel := channel + [Record(next, entry.intent.kind, entry.previous, Attached(entry.intent))];
        log := log + [q.id];
        next := next + 1;
      }
      if f == BeforeReceipt { return; }
      var resource := channel[IndexOf(log, q.id)].resource;
      book := book[q.id := entry.(receipt := Some(resource))];
      return Some(resource);
    }
  }

  lemma AttemptMeans(d: Desk, q: Request, f: Fate)
    requires |d.channel| == |d.log|
    ensures var e := EntryFor(d, q);
            && (e.None? || f == BeforeSave ==> Attempt(d, q, f) == d)
            && (e.Some? ==> e.value.intent == q.intent)
            && (e.Some? && f != BeforeSave ==>
                  var saved := Journaled(d, q.id, e.value);
                  Attempt(d, q, f) == if f == BeforeSend then saved
                                      else if f == BeforeReceipt then Created(saved, q.id, e.value)
                                      else Received(Created(saved, q.id, e.value), q.id))
  {
    hide Build;
  }

  lemma EventsLast(chain: seq<Record>)
    ensures LastOf(chain) == if Events(chain) == [] then None else Some(Events(chain)[|chain| - 1].resource)
  {
  }
}
