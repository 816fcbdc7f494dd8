/**
 * The task channel: a lifecycle chain rebuilt from an unordered listing of records, each of
 * which pins its predecessor. Two successors of one record are a fork and are never chosen
 * between.
 */
module TaskChannel {
  import opened Wrappers

  datatype Kind = Accept | Progress | Deliver

  /** A record that passed its own checks; a reference stands for an id with its revision. */
  datatype Record = Record(resource: nat, kind: Kind, previous: Option<nat>, artifacts: seq<nat>)

  datatype Item = Sound(record: Record) | Other

  datatype State = Invited | Accepted | InProgress | Delivered

  datatype Status = Status(state: State, chain: seq<Record>, artifacts: seq<nat>, ambiguous: bool, left: nat)

  const MAX_EVENTS := 200

  function After(kind: Kind): State {
    match kind
    case Accept => Accepted
    case Progress => InProgress
    case Deliver => Delivered
  }

  predicate Allows(state: State, kind: Kind) {
    (state == Invited && kind == Accept) || ((state == Accepted || state == InProgress) && kind != Accept)
  }

  predicate Eligible(x: Record, state: State, previous: Option<nat>) {
    x.previous == previous && Allows(state, x.kind)
  }

  /** The records that may come next, in listing order. */
  function Candidates(records: seq<Record>, state: State, previous: Option<nat>): seq<Record> {
    if records == [] then []
    else
      var rest := Candidates(records[1..], state, previous);
      if Eligible(records[0], state, previous) then [records[0]] + rest else rest
  }

  function Without(records: seq<Record>, e: Record): (rest: seq<Record>)
    ensures e in records ==> |rest| == |records| - 1
  {
    if records == [] then []
    else if records[0] == e then records[1..]
    else [records[0]] + Without(records[1..], e)
  }

  /** The chain that `get` builds from here on. */
  function Build(records: seq<Record>, state: State, previous: Option<nat>): Status
    decreases |records|
  {
    var valid := Candidates(records, state, previous);
    if records == [] || state == Delivered then Status(state, [], [], false, |records|)
    else if |valid| != 1 then Status(state, [], [], |valid| > 1, |records|)
    else
      var e := valid[0];
      CandidateListed(records, state, previous, e);
      var rest := Build(Without(records, e), After(e.kind), Some(e.resource));
      Status(rest.state, [e] + rest.chain, if rest.chain == [] then e.artifacts else rest.artifacts,
             rest.ambiguous, rest.left)
  }

  lemma {:induction false} CandidateListed(records: seq<Record>, state: State, previous: Option<nat>, e: Record)
    ensures e in Candidates(records, state, previous) <==> e in records && Eligible(e, state, previous)
    decreases |records|
  {
    hide Eligible;
    if records != [] {
      CandidateListed(records[1..], state, previous, e);
      assert records == [records[0]] + records[1..];
    }
  }

  /** One round of the loop: stop, or take the only candidate. */
  lemma BuildStep(records: seq<Record>, state: State, previous: Option<nat>)
    ensures var valid, b := Candidates(records, state, previous), Build(records, state, previous);
            && (records == [] || state == Delivered ==> b == Status(state, [], [], false, |records|))
            && (records != [] && state != Delivered && |valid| != 1 ==> b == Status(state, [], [], |valid| > 1, |records|))
            && (records != [] && state != Delivered && |valid| == 1 ==>
                  var rest := Build(Without(records, valid[0]), After(valid[0].kind), Some(valid[0].resource));
                  b == Status(rest.state, [valid[0]] + rest.chain,
                              if rest.chain == [] then valid[0].artifacts else rest.artifacts, rest.ambiguous, rest.left))
  {
  }

  // ---------- listing order does not matter ----------

  lemma {:induction false} CandidateCounts(records: seq<Record>, state: State, previous: Option<nat>, e: Record)
    ensures multiset(Candidates(records, state, previous))[e] ==
            if Eligible(e, state, previous) then multiset(records)[e] else 0
    decreases |records|
  {
    hide Eligible;
    if records != [] {
      CandidateCounts(records[1..], state, previous, e);
      assert records == [records[0]] + records[1..];
    }
  }

  lemma {:induction false} WithoutCounts(records: seq<Record>, e: Record)
    ensures multiset(Without(records, e)) == multiset(records) - multiset{e}
    decreases |records|
  {
    if records != [] {
      assert records == [records[0]] + records[1..];
      if records[0] != e { WithoutCounts(records[1..], e); }
    }
  }

  /** More records can only add candidates. */
  lemma CandidatesGrow(r: seq<Record>, s: seq<Record>, state: State, previous: Option<nat>)
    requires multiset(r) <= multiset(s)
    ensures multiset(Candidates(r, state, previous)) <= multiset(Candidates(s, state, previous))
    ensures |Candidates(r, state, previous)| <= |Candidates(s, state, previous)|
    ensures multiset(r) == multiset(s) ==> |Candidates(r, state, previous)| == |Candidates(s, state, previous)|
  {
    hide Candidates;
    var a, b := Candidates(r, state, previous), Candidates(s, state, previous);
    forall e ensures multiset(a)[e] <= multiset(b)[e] && (multiset(r) == multiset(s) ==> multiset(a)[e] == multiset(b)[e]) {
      CandidateCounts(r, state, previous, e);
      CandidateCounts(s, state, previous, e);
    }
    SmallerMultiset(multiset(a), multiset(b));
    if multiset(r) == multiset(s) { SmallerMultiset(multiset(b), multiset(a)); }
  }

  lemma SmallerMultiset<T>(a: multiset<T>, b: multiset<T>)
    requires a <= b
    ensures |a| <= |b|
  {
    assert b == a + (b - a);
  }

  /** A lone candidate among more records is the same one. */
  lemma SameCandidate(r: seq<Record>, s: seq<Record>, state: State, previous: Option<nat>)
    requires multiset(r) <= multiset(s)
    requires |Candidates(r, state, previous)| == 1 && |Candidates(s, state, previous)| == 1
    ensures Candidates(r, state, previous)[0] == Candidates(s, state, previous)[0]
  {
    hide Candidates;
    CandidatesGrow(r, s, state, previous);
    var a, b := Candidates(r, state, previous), Candidates(s, state, previous);
    assert a[0] in multiset(b);
    assert b == [b[0]];
  }

  /** The status depends on which records are listed, not on their order. */
  lemma {:induction false} OrderIrrelevant(r: seq<Record>, s: seq<Record>, state: State, previous: Option<nat>)
    requires multiset(r) == multiset(s)
    ensures Build(r, state, previous) == Build(s, state, previous)
    decreases |r|
  {
    hide Candidates, Without, Build;
    BuildStep(r, state, previous);
    BuildStep(s, state, previous);
    assert |r| == |multiset(r)| == |multiset(s)| == |s|;
    CandidatesGrow(r, s, state, previous);
    var a := Candidates(r, state, previous);
    if r != [] && state != Delivered && |a| == 1 {
      SameCandidate(r, s, state, previous);
      CandidateListed(r, state, previous, a[0]);
      WithoutCounts(r, a[0]);
      WithoutCounts(s, a[0]);
      OrderIrrelevant(Without(r, a[0]), Without(s, a[0]), After(a[0].kind), Some(a[0].resource));
    }
  }

  // ---------- later listings ----------

  /**
   * Later listings only add records. Then the chain only grows, or it is cut back by a fork
   * that is reported; and a fork, once there, stays.
   */
  lemma {:induction false} ChainsComparable(r: seq<Record>, s: seq<Record>, state: State, previous: Option<nat>)
    requires multiset(r) <= multiset(s)
    ensures var a, b := Build(r, state, previous), Build(s, state, previous);
            && (a.chain <= b.chain || (b.chain <= a.chain && b.ambiguous))
            && (a.ambiguous ==> b.ambiguous)
            && (a.state == Delivered && !b.ambiguous ==> a.chain == b.chain && b.state == Delivered)
    decreases |r|
  {
    hide Candidates, Without, Build;
    BuildStep(r, state, previous);
    BuildStep(s, state, previous);
    CandidatesGrow(r, s, state, previous);
    var a, b := Candidates(r, state, previous), Candidates(s, state, previous);
    SmallerMultiset(multiset(r), multiset(s));
    if r != [] && state != Delivered && |a| == 1 && |b| == 1 {
      SameCandidate(r, s, state, previous);
      CandidateListed(r, state, previous, a[0]);
      WithoutCounts(r, a[0]);
      WithoutCounts(s, a[0]);
      ChainsComparable(Without(r, a[0]), Without(s, a[0]), After(a[0].kind), Some(a[0].resource));
    }
  }

  // ---------- the shape of a chain ----------

  /** Every event is allowed where it stands and pins the one before it. */
  predicate Linked(chain: seq<Record>, state: State, previous: Option<nat>)
    decreases |chain|
  {
    chain == [] || (Eligible(chain[0], state, previous) && Linked(chain[1..], After(chain[0].kind), Some(chain[0].resource)))
  }

  function Reached(chain: seq<Record>, state: State): State
    decreases |chain|
  {
    if chain == [] then state else Reached(chain[1..], After(chain[0].kind))
  }

  lemma {:induction false} ChainIsLinked(records: seq<Record>, state: State, previous: Option<nat>)
    ensures var b := Build(records, state, previous);
            && Linked(b.chain, state, previous) && b.state == Reached(b.chain, state)
            && multiset(b.chain) <= multiset(records) && |b.chain| + b.left == |records|
            && b.artifacts == (if b.chain == [] then [] else b.chain[|b.chain| - 1].artifacts)
    decreases |records|
  {
    hide Candidates, Without, Eligible, Build;
    BuildStep(records, state, previous);
    var valid := Candidates(records, state, previous);
    if records != [] && state != Delivered && |valid| == 1 {
      var e := valid[0];
      CandidateListed(records, state, previous, e);
      var rest := Without(records, e);
      WithoutCounts(records, e);
      ChainIsLinked(rest, After(e.kind), Some(e.resource));
      var b := Build(rest, After(e.kind), Some(e.resource));
      assert ([e] + b.chain)[1..] == b.chain;
      assert multiset(records) == multiset(rest) + multiset{e};
    }
  }

  /** One acceptance, then progress, then at most one delivery at the very end. */
  predicate Lifecycle(chain: seq<Record>) {
    && (chain != [] ==> chain[0].kind == Accept && chain[0].previous == None)
    && (forall i :: 0 < i < |chain| ==> chain[i].kind != Accept && chain[i].previous == Some(chain[i - 1].resource))
    && (forall i :: 0 <= i < |chain| - 1 ==> chain[i].kind != Deliver)
  }

  lemma {:induction false} LinkedShape(chain: seq<Record>, state: State, previous: Option<nat>)
    requires Linked(chain, state, previous)
    ensures chain != [] ==> chain[0].previous == previous && Allows(state, chain[0].kind)
    ensures forall i :: 0 < i < |chain| ==> chain[i].kind != Accept && chain[i].previous == Some(chain[i - 1].resource)
    ensures forall i :: 0 <= i < |chain| - 1 ==> chain[i].kind != Deliver
    decreases |chain|
  {
    if chain != [] {
      var tail := chain[1..];
      LinkedShape(tail, After(chain[0].kind), Some(chain[0].resource));
      forall i | 0 < i < |chain| ensures chain[i].kind != Accept && chain[i].previous == Some(chain[i - 1].resource) {
        if i > 1 { assert chain[i] == tail[i - 1] && chain[i - 1] == tail[i - 2]; }
      }
      forall i | 0 <= i < |chain| - 1 ensures chain[i].kind != Deliver {
        if i > 0 { assert chain[i] == tail[i - 1]; }
      }
    }
  }

  /** What `get` reports, for every listing: a lifecycle of listed records, ended by its state. */
  lemma ReportedShape(records: seq<Record>)
    ensures var b := Build(records, Invited, None);
            && Lifecycle(b.chain) && multiset(b.chain) <= multiset(records)
            && (b.state == Invited <==> b.chain == [])
            && (b.state == Delivered <==> b.chain != [] && b.chain[|b.chain| - 1].kind == Deliver)
            && |b.chain| + b.left == |records|
  {
    hide Build, Linked, Reached;
    var b := Build(records, Invited, None);
    ChainIsLinked(records, Invited, None);
    LinkedShape(b.chain, Invited, None);
    ReachedLast(b.chain, Invited);
  }

  lemma {:induction false} ReachedLast(chain: seq<Record>, state: State)
    ensures Reached(chain, state) == if chain == [] then state else After(chain[|chain| - 1].kind)
    decreases |chain|
  {
    if chain != [] {
      ReachedLast(chain[1..], After(chain[0].kind));
    }
  }

  // ---------- get ----------

  function Records(items: seq<Item>): (records: seq<Record>)
    ensures |records| <= |items|
  {
    if items == [] then []
    else
      var last := items[|items| - 1];
      Records(items[..|items| - 1]) + if last.Sound? then [last.record] else []
  }

  datatype Event = Event(resource: nat, kind: Kind)

  function Events(chain: seq<Record>): (events: seq<Event>)
    ensures |events| == |chain|
  {
    seq(|chain|, i requires 0 <= i < |chain| => Event(chain[i].resource, chain[i].kind))
  }

  datatype Report = Report(state: State, events: seq<Event>, artifacts: seq<nat>, ambiguous: bool, ignored: nat)

  /** What `get` makes of a listing: nothing beyond MAX_EVENTS items, and else the chain of its records. */
  function Reported(items: seq<Item>): Option<Report> {
    if |items| > MAX_EVENTS then None
    else
      var b := Build(Records(items), Invited, None);
      Some(Report(b.state, Events(b.chain), b.artifacts, b.ambiguous, |items| - |Records(items)| + b.left))
  }

  lemma ReportedFrom(items: seq<Item>)
    ensures |items| > MAX_EVENTS ==> Reported(items) == None
    ensures |items| <= MAX_EVENTS ==>
              var b := Build(Records(items), Invited, None);
              Reported(items) == Some(Report(b.state, Events(b.chain), b.artifacts, b.ambiguous, |items| - |Records(items)| + b.left))
  {
  }

  /** The listing loop: at most MAX_EVENTS items, sound records kept in listing order. */
  method Collect(items: seq<Item>) returns (records: Option<seq<Record>>, ignored: nat)
    ensures records.Some? <==> |items| <= MAX_EVENTS
    ensures records.Some? ==> records.value == Records(items) && ignored + |records.value| == |items|
  {
    var kept: seq<Record> := [];
    ignored := 0;
    for i := 0 to |items|
      invariant kept == Records(items[..i]) && ignored + |kept| == i <= MAX_EVENTS
    {
      if |kept| + ignored >= MAX_EVENTS { return None, ignored; }
      assert items[..i + 1][..i] == items[..i];
      match items[i] {
        case Other => ignored := ignored + 1;
        case Sound(record) => kept := kept + [record];
      }
    }
    assert items[..|items|] == items;
    return Some(kept), ignored;
  }

  /** `whole` is what has been built so far, followed by `b`. */
  predicate Ahead(whole: Status, built: seq<Record>, artifacts: seq<nat>, b: Status) {
    && whole.state == b.state && whole.chain == built + b.chain && whole.left == b.left
    && whole.ambiguous == b.ambiguous && whole.artifacts == (if b.chain == [] then artifacts else b.artifacts)
  }

  lemma AheadStart(whole: Status)
    requires whole.chain == [] ==> whole.artifacts == []
    ensures Ahead(whole, [], [], whole)
  {
  }

  lemma AheadStep(whole: Status, built: seq<Record>, artifacts: seq<nat>, b: Status, e: Record, rest: Status)
    requires Ahead(whole, built, artifacts, b)
    requires b == Status(rest.state, [e] + rest.chain, if rest.chain == [] then e.artifacts else rest.artifacts,
                         rest.ambiguous, rest.left)
    ensures Ahead(whole, built + [e], e.artifacts, rest)
  {
  }

  lemma AheadEnd(whole: Status, built: seq<Record>, artifacts: seq<nat>, b: Status)
    requires Ahead(whole, built, artifacts, b) && b.chain == []
    ensures whole == Status(b.state, built, artifacts, b.ambiguous, b.left)
  {
  }

  lemma NoEvents()
    ensures Events([]) == []
  {
  }

  lemma EventsMore(chain: seq<Record>, e: Record)
    ensures Events(chain + [e]) == Events(chain) + [Event(e.resource, e.kind)]
  {
  }

  /** Reads the status; a channel with too many items is refused. */
  method Get(items: seq<Item>) returns (report: Option<Report>)
    ensures report == Reported(items)
    ensures report.Some? <==> |items| <= MAX_EVENTS
    ensures report.Some? ==>
              var b := Build(Records(items), Invited, None);
              && report.value.state == b.state && report.value.events == Events(b.chain)
              && report.value.artifacts == b.artifacts && report.value.ambiguous == b.ambiguous
              && report.value.ignored + |b.chain| == |items|
  {
    hide Build, Candidates, Without, Records, Ahead, Events, Linked, Reached, Reported;
    ReportedFrom(items);
    var collected, skipped := Collect(items);
    if collected.None? { return None; }
    var records := collected.value;
    var state, previous, artifacts, ambiguous := Invited, None, [], false;
    var chain: seq<Event> := [];
    var remaining := records;
    ghost var built := [];
    ghost var whole := Build(records, Invited, None);
    ChainIsLinked(records, Invited, None);
    AheadStart(whole);
    NoEvents();
    while remaining != [] && state != Delivered
      invariant chain == Events(built)
      invariant Ahead(whole, built, artifacts, Build(remaining, state, previous)) && !ambiguous
      decreases |remaining|
    {
      var valid := Next(remaining, state, previous);
      BuildStep(remaining, state, previous);
      if |valid| != 1 {
        ambiguous := |valid| > 1;
        break;
      }
      var event := valid[0];
      CandidateListed(remaining, state, previous, event);
      AheadStep(whole, built, artifacts, Build(remaining, state, previous), event,
                Build(Without(remaining, event), After(event.kind), Some(event.resource)));
      EventsMore(built, event);
      chain := chain + [Event(event.resource, event.kind)];
      built := built + [event];
      previous := Some(event.resource);
      state := After(event.kind);
      artifacts := event.artifacts;
      remaining := Without(remaining, event);
    }
    BuildStep(remaining, state, previous);
    AheadEnd(whole, built, artifacts, Build(remaining, state, previous));
    return Some(Report(state, chain, artifacts, ambiguous, skipped + |remaining|));
  }

  /** The comprehension over what remains. */
  method Next(remaining: seq<Record>, state: State, previous: Option<nat>) returns (valid: seq<Record>)
    ensures valid == Candidates(remaining, state, previous)
  {
    valid := [];
    var i := |remaining|;
    while i > 0
      invariant 0 <= i <= |remaining| && valid == Candidates(remaining[i..], state, previous)
    {
      i := i - 1;
      assert remaining[i..][1..] == remaining[i + 1..];
      if Eligible(remaining[i], state, previous) { valid := [remaining[i]] + valid; }
    }
  }
}
