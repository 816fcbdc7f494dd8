/**
 * The resumable listener. The source is a log of events of which a growing prefix is
 * visible; a page is a slice that starts at the cursor. A run may be killed before any
 * print or any durable save, or while it waits for a page.
 */
module Listener {
  import opened Wrappers

  datatype Event = Event(kind: Option<string>, text: string)

  /** What a checkpoint is bound to. An empty filter lets every event through. */
  datatype Binding = Binding(context: string, types: set<string>)

  /** The checkpoint: a cursor and the unprinted rest of the page that ends there. */
  datatype State = State(binding: Binding, cursor: Option<nat>, pending: seq<Event>, hasMore: bool)

  /** The answer to one fetch. Without an explicit flag the source reports honestly if more is visible. */
  datatype Answer =
    | Page(visible: nat, take: nat, more: Option<bool>)
    | Interrupted
    | Rejected

  datatype Options = Options(
    binding: Binding, cursor: Option<nat>, once: bool,
    maxEvents: Option<nat>, maxPages: Option<nat>, fromNow: bool)

  datatype Outcome = Finished(emitted: nat) | Refused | Killed

  predicate Matches(types: set<string>, e: Event) {
    types == {} || (e.kind.Some? && e.kind.value in types)
  }

  /** The places in [lo, hi) of the events that pass the filter, in order. */
  function Matching(log: seq<Event>, types: set<string>, lo: nat, hi: nat): (places: seq<nat>)
    ensures forall i :: 0 <= i < |places| ==> lo <= places[i] < hi && places[i] < |log|
  {
    if lo >= hi || hi > |log| then []
    else Matching(log, types, lo, hi - 1) + if Matches(types, log[hi - 1]) then [hi - 1] else []
  }

  lemma {:induction false} MatchingSplit(log: seq<Event>, types: set<string>, a: nat, b: nat, c: nat)
    requires a <= b <= c <= |log|
    ensures Matching(log, types, a, c) == Matching(log, types, a, b) + Matching(log, types, b, c)
    decreases c
  {
    hide Matches;
    if b < c {
      MatchingSplit(log, types, a, b, c - 1);
    }
  }

  /** What the filtered stream is: every place whose event the filter names, or each one without a filter, in order. */
  lemma {:induction false} MatchingMeans(log: seq<Event>, types: set<string>, lo: nat, hi: nat)
    requires hi <= |log|
    ensures var places := Matching(log, types, lo, hi);
            && (forall i, j :: 0 <= i < j < |places| ==> places[i] < places[j])
            && (forall p: nat :: p in places <==>
                  lo <= p < hi && (types == {} || (log[p].kind.Some? && log[p].kind.value in types)))
    decreases hi
  {
    if lo < hi { MatchingMeans(log, types, lo, hi - 1); }
  }

  lemma MatchingOne(log: seq<Event>, types: set<string>, a: nat)
    requires a < |log|
    ensures Matching(log, types, a, a + 1) == if Matches(types, log[a]) then [a] else []
  {
    assert Matching(log, types, a, a) == [];
  }

  function At(cursor: Option<nat>): nat {
    if cursor.None? then 0 else cursor.value
  }

  /** The pending events are exactly the log's events before the cursor. */
  predicate Sound(log: seq<Event>, visible: nat, s: State) {
    && |s.pending| <= At(s.cursor) <= visible <= |log|
    && s.pending == log[At(s.cursor) - |s.pending|..At(s.cursor)]
  }

  /** The place of the first event that is not yet settled. */
  function Position(s: State): nat {
    if |s.pending| <= At(s.cursor) then At(s.cursor) - |s.pending| else 0
  }

  /** Every line written is the log's event at the place recorded for it. */
  predicate Written(log: seq<Event>, visible: nat, places: seq<nat>, output: seq<Event>) {
    && visible <= |log| && |places| == |output|
    && forall i :: 0 <= i < |places| ==> places[i] < visible && output[i] == log[places[i]]
  }

  /** Between `from` and `end` exactly the matching events were written, and `count` of them. */
  predicate Settled(log: seq<Event>, types: set<string>, from: nat, end: nat,
                    before: seq<nat>, now: seq<nat>, count: nat)
  {
    now == before + Matching(log, types, from, end) && count == |Matching(log, types, from, end)|
  }

  /** No answer shows more of the log than is visible already. */
  predicate Quiet(answers: seq<Answer>, visible: nat) {
    forall a <- answers :: a.Page? ==> a.visible <= visible
  }

  /** No answer claims that more is left, or not, against the source's own view. */
  predicate Plain(answers: seq<Answer>) {
    forall a <- answers :: a.Page? ==> a.more == None
  }

  function LoadState(file: Option<State>, binding: Binding, cursor: Option<nat>): Option<State> {
    if file.None? then Some(State(binding, cursor, [], false))
    else if file.value.binding != binding then None
    else if cursor.Some? && cursor != file.value.cursor then None
    else file
  }

  predicate ValidOptions(o: Options) {
    && "" !in o.binding.types
    && (o.maxEvents.Some? ==> o.maxEvents.value >= 1)
    && (o.maxPages.Some? ==> o.maxPages.value >= 1 && o.once)
  }

  /** The cursor that a run starts with. */
  function Cursor(file: Option<State>, o: Options): Option<nat> {
    if file.Some? then file.value.cursor else o.cursor
  }

  /** Where the next run with this start cursor continues. */
  function Resume(file: Option<State>, cursor: Option<nat>): nat {
    if file.Some? then Position(file.value) else At(cursor)
  }

  /** The last event of a killed run was printed but not saved. */
  predicate Repeats(log: seq<Event>, file: Option<State>, o: Options, r: Outcome, from: nat, end: nat) {
    r.Killed? && from < end <= |log| && Resume(file, o.cursor) + 1 == end && Matches(o.binding.types, log[end - 1])
  }

  /** The saved flag says whether anything is visible beyond the saved cursor. */
  predicate Honest(file: Option<State>, visible: nat) {
    file.Some? ==> Flagged(file.value, visible)
  }

  /** A single pass over a source that does not grow and reports honestly if more is left. */
  predicate HonestOnce(o: Options, answers: seq<Answer>, visible: nat) {
    o.once && o.maxPages.None? && !o.fromNow && Plain(answers) && Quiet(answers, visible)
  }

  /** Every fetch succeeds, and every page that can move on does. */
  predicate Steady(answers: seq<Answer>) {
    forall a <- answers :: a.Page? && a.take > 0
  }

  /** Nothing crashes, and there are answers enough to reach the end of what is visible. */
  predicate Lively(answers: seq<Answer>, first: nat, start: State, visible: nat, fuse: Option<nat>) {
    Steady(answers) && fuse.None? && |answers| - first > visible - At(start.cursor)
  }

  /** A run without an event limit over a source that does not grow and reports honestly if more is left. */
  predicate Fair(o: Options, answers: seq<Answer>, file: Option<State>, visible: nat) {
    o.maxEvents.None? && !o.fromNow && Plain(answers) && Quiet(answers, visible) && Honest(file, visible)
  }

  /** The page limit is reached, or a single pass has seen all there is. */
  predicate Over(o: Options, pages: nat, s: State) {
    (o.maxPages.Some? && pages >= o.maxPages.value) || (!s.hasMore && o.once)
  }

  /** One page was answered, after any number of interruptions. */
  predicate Served(answers: seq<Answer>, first: nat, next: nat) {
    && first < next <= |answers| && answers[next - 1].Page?
    && forall k :: first <= k < next - 1 ==> answers[k].Interrupted?
  }

  /** A round takes the one page it needs, if nothing is pending and the page comes. */
  predicate Fetched(answers: seq<Answer>, first: nat, next: nat, start: State, state: State, pages: nat, taken: nat,
                    stop: Option<Outcome>, visible: nat)
  {
    && (start.pending != [] ==> taken == pages && next == first && state.cursor == start.cursor)
    && (start.pending == [] ==>
          || (taken == pages && state.cursor == start.cursor && stop.Some? && !stop.value.Finished?)
          || (taken == pages + 1 && Served(answers, first, next)
              && At(state.cursor) == Min(At(start.cursor) + answers[next - 1].take, visible)))
  }

  /** What the first n pages answered from here on take in all. */
  function Takes(answers: seq<Answer>, first: nat, n: nat): nat
    decreases |answers| - first
  {
    if first >= |answers| || n == 0 then 0
    else if answers[first].Page? then answers[first].take + Takes(answers, first + 1, n - 1)
    else Takes(answers, first + 1, n)
  }

  lemma {:induction false} TakesOne(answers: seq<Answer>, first: nat, next: nat, n: nat)
    requires Served(answers, first, next) && n > 0
    ensures Takes(answers, first, n) == answers[next - 1].take + Takes(answers, next, n - 1)
    decreases next - first
  {
    if first < next - 1 { TakesOne(answers, first + 1, next, n); }
  }

  /**
   * Page by page: with `used` pages taken the cursor has gone no further than what these take
   * from `origin` on, and exactly that far within what is visible all along.
   */
  predicate Paged(answers: seq<Answer>, first: nat, next: nat, origin: nat, cursor: nat, limit: nat, used: nat, visible: nat, steady: bool) {
    used <= limit
    && cursor + Takes(answers, next, limit - used) <= origin + Takes(answers, first, limit)
    && (steady ==> Min(visible, cursor + Takes(answers, next, limit - used)) == Min(visible, origin + Takes(answers, first, limit)))
  }

  lemma PagedMore(answers: seq<Answer>, first: nat, next: nat, after: nat, origin: nat, cursor: nat, limit: nat, used: nat,
                  visible: nat, wider: nat, steady: bool)
    requires Paged(answers, first, next, origin, cursor, limit, used, visible, steady) && used < limit
    requires Served(answers, next, after) && (steady ==> cursor <= visible == wider)
    ensures Paged(answers, first, after, origin, Min(cursor + answers[after - 1].take, wider), limit, used + 1, visible, steady)
  {
    TakesOne(answers, next, after, limit - used);
  }

  /** The page limit is not reached, and the cursor is where the pages so far have taken it. */
  predicate Within(o: Options, answers: seq<Answer>, first: nat, next: nat, start: State, state: State, pages: nat, visible: nat, steady: bool) {
    o.maxPages.Some? ==>
      pages < o.maxPages.value && Paged(answers, first, next, At(start.cursor), At(state.cursor), o.maxPages.value, pages, visible, steady)
  }

  lemma WithinStart(o: Options, answers: seq<Answer>, first: nat, start: State, visible: nat, steady: bool)
    requires ValidOptions(o)
    ensures Within(o, answers, first, first, start, start, 0, visible, steady)
  {
  }

  lemma PageStep(o: Options, answers: seq<Answer>, first: nat, was: nat, next: nat, start: State, at: State, state: State,
                 used: nat, pages: nat, stop: Option<Outcome>, visible: nat, wider: nat, steady: bool)
    requires Within(o, answers, first, was, start, at, used, visible, steady)
    requires Fetched(answers, was, next, at, state, used, pages, stop, wider)
    requires (stop.None? ==> !Over(o, pages, state)) && (steady ==> At(at.cursor) <= visible == wider && At(state.cursor) <= visible)
    ensures stop.None? ==> Within(o, answers, first, next, start, state, pages, visible, steady)
    ensures o.maxPages.Some? ==> At(state.cursor) <= At(start.cursor) + Takes(answers, first, o.maxPages.value)
    ensures o.maxPages.Some? && stop.Some? && stop.value.Finished? && steady && (pages >= o.maxPages.value || At(state.cursor) == visible) ==>
              At(state.cursor) == Min(visible, At(start.cursor) + Takes(answers, first, o.maxPages.value))
  {
    hide Served;
    if o.maxPages.Some? && pages == used + 1 {
      PagedMore(answers, first, was, next, At(start.cursor), At(at.cursor), o.maxPages.value, used, visible, wider, steady);
    }
  }

  /** Nothing is refused by the server, and every page that can move on does. */
  predicate Benign(answers: seq<Answer>) {
    forall a <- answers :: a.Interrupted? || (a.Page? && a.take > 0)
  }

  /** The flag says whether anything is visible beyond the cursor. */
  predicate Flagged(s: State, visible: nat) {
    s.hasMore == (At(s.cursor) < visible)
  }

  /** The checkpoint was left alone, or is one of this run. */
  predicate Follows(o: Options, before: Option<State>, now: Option<State>) {
    (now == before || (now.Some? && now.value.binding == o.binding)) && (before.Some? ==> now.Some?)
  }

  /** The options are valid and fit the checkpoint that is there. */
  predicate Startable(o: Options, file: Option<State>) {
    && ValidOptions(o) && LoadState(file, o.binding, o.cursor).Some?
    && (o.fromNow ==> o.cursor.None? && file.None?)
  }

  /** An honest single pass that can start and can reach the end of what is visible. */
  predicate Completing(o: Options, answers: seq<Answer>, file: Option<State>, visible: nat, fuse: Option<nat>) {
    && Startable(o, file) && HonestOnce(o, answers, visible) && Honest(file, visible)
    && Steady(answers) && fuse.None? && |answers| > visible
  }

  /** What lines were added, and of which events. */
  lemma Added(log: seq<Event>, types: set<string>, visible0: nat, visible: nat, before: seq<nat>, printed: seq<Event>,
              places: seq<nat>, output: seq<Event>, from: nat, end: nat)
    requires Written(log, visible0, before, printed) && Written(log, visible, places, output) && from <= end <= |log|
    requires places == before + Matching(log, types, from, end)
    ensures |before| <= |places| == |output| && before <= places && printed <= output
    ensures |places| - |before| == |Matching(log, types, from, end)|
    ensures forall i :: |before| <= i < |places| ==> from <= places[i] < end && output[i] == log[places[i]]
    ensures forall i, j :: |before| <= i < j < |places| ==> places[i] < places[j]
    ensures forall p: nat :: from <= p < end ==>
              (p in places[|before|..] <==> types == {} || (log[p].kind.Some? && log[p].kind.value in types))
    ensures from < end && Matches(types, log[end - 1]) ==> |before| < |places| && places[|places| - 1] == end - 1
  {
    var more := Matching(log, types, from, end);
    MatchingMeans(log, types, from, end);
    assert places[|before|..] == more;
    if from < end && Matches(types, log[end - 1]) {
      assert more[|more| - 1] == end - 1;
    }
    hide Matching, Matches;
    forall i | 0 <= i < |printed| ensures output[i] == printed[i] {
      assert places[i] == before[i];
    }
  }

  /** When a run can start, spelled out. */
  lemma StartableIff(o: Options, file: Option<State>)
    ensures Startable(o, file) <==>
            && o.maxEvents != Some(0) && o.maxPages != Some(0) && (o.maxPages.Some? ==> o.once) && "" !in o.binding.types
            && (file.Some? ==> file.value.binding == o.binding && (o.cursor.Some? ==> o.cursor == file.value.cursor))
            && (o.fromNow ==> o.cursor.None? && file.None?)
  {
  }

  class Reader {
    const log: seq<Event>
    var visible: nat
    var file: Option<State>
    var output: seq<Event>
    ghost var places: seq<nat>

    ghost predicate Valid()
      reads this
    {
      && Written(log, visible, places, output)
      && (file.Some? ==> Sound(log, visible, file.value))
    }

    constructor (log: seq<Event>)
      ensures Valid() && this.log == log && visible == 0 && file == None && output == [] && places == []
    {
      this.log := log;
      visible := 0;
      file := None;
      output := [];
      places := [];
    }

    /** seed_checkpoint: an existing checkpoint always wins. */
    method SeedCheckpoint(binding: Binding, cursor: nat) returns (seeded: Option<bool>)
      requires Valid() && cursor <= visible
      modifies this`file
      ensures Valid()
      ensures old(file).Some? ==> file == old(file)
      ensures old(file).Some? ==> seeded == if old(file).value.binding == binding then Some(false) else None
      ensures old(file).None? ==> seeded == Some(true) && file == Some(State(binding, Some(cursor), [], false))
    {
      if file.Some? {
        return if LoadState(file, binding, None).None? then None else Some(false);
      }
      file := LoadState(None, binding, Some(cursor));
      return Some(true);
    }

    /** The next page, after any number of interruptions. */
    method Read(cursor: Option<nat>, tail: bool, answers: seq<Answer>, start: nat)
      returns (page: Option<State>, next: nat, rejected: bool)
      requires Valid() && start <= |answers| && At(cursor) <= visible
      modifies this`visible
      ensures Valid() && old(visible) <= visible
      ensures Quiet(answers, old(visible)) ==> visible == old(visible)
      ensures start <= next <= |answers| && (page.Some? ==> start < next)
      ensures page.None? && !rejected ==> next == |answers|
      ensures page.Some? ==>
                var p := page.value;
                && !rejected && p.cursor.Some?
                && (if tail then At(p.cursor) == visible else At(cursor) <= At(p.cursor) <= visible)
                && p.pending == log[At(cursor)..At(p.cursor)]
                && (Plain(answers) ==> p.hasMore == (At(p.cursor) < visible))
      ensures start < |answers| && answers[start].Page? ==> next == start + 1 && page.Some?
      ensures page.Some? ==>
                && Served(answers, start, next)
                && visible == Max(old(visible), Min(answers[next - 1].visible, |log|))
                && (!tail ==> At(page.value.cursor) == Min(At(cursor) + answers[next - 1].take, visible))
                && page.value.hasMore == (if answers[next - 1].more.Some? then answers[next - 1].more.value else At(page.value.cursor) < visible)
      ensures rejected ==> page.None? && start < next && answers[next - 1].Rejected? && forall k :: start <= k < next - 1 ==> answers[k].Interrupted?
      ensures page.None? && !rejected ==> forall k :: start <= k < |answers| ==> answers[k].Interrupted?
    {
      next, rejected, page := start, false, None;
      while next < |answers| && answers[next].Interrupted?
        invariant start <= next <= |answers|
        invariant forall k :: start <= k < next ==> answers[k].Interrupted?
      {
        next := next + 1;
      }
      if next == |answers| { return; }
      var answer := answers[next];
      next := next + 1;
      assert answer in answers;
      if answer.Rejected? {
        rejected := true;
        return;
      }
      visible := Max(visible, Min(answer.visible, |log|));
      var end := if tail then visible else Min(At(cursor) + answer.take, visible);
      var more := if answer.more.Some? then answer.more.value else end < visible;
      page := Some(State(Binding("", {}), Some(end), log[At(cursor)..end], more));
    }

    /** The run starts at the end of what is visible, and saves that first. */
    method FromNow(o: Options, answers: seq<Answer>, fuse: Option<nat>)
      returns (stopped: Option<Outcome>, start: State, next: nat, left: Option<nat>)
      requires Valid() && file.None? && o.cursor.None?
      modifies this`file, this`visible
      ensures Valid() && old(visible) <= visible && next <= |answers| && (fuse.None? ==> left.None?)
      ensures Quiet(answers, old(visible)) ==> visible == old(visible)
      ensures stopped.Some? ==> !stopped.value.Finished? && file.None?
      ensures Benign(answers) ==> stopped != Some(Refused)
      ensures stopped.None? ==>
                && file == Some(start) && Sound(log, visible, start) && start.binding == o.binding
                && old(visible) <= Position(start) == visible
    {
      var page, after, rejected := Read(None, true, answers, 0);
      start, next, left := State(o.binding, None, [], false), after, fuse;
      assert rejected ==> answers[after - 1] in answers;
      if page.None? { return Some(if rejected then Refused else Killed), start, next, left; }
      start := start.(cursor := page.value.cursor);
      if left == Some(0) { return Some(Killed), start, next, left; }
      left := Spend(left);
      file := Some(start);
      stopped := None;
    }

    /**
     * One run. `from` is where it starts and `end` is the place after the last event it
     * printed or skipped. Whatever happens, the lines written are exactly the matching
     * events in [from, end), and the checkpoint resumes at `end`, or at `end - 1` when the
     * run was killed between printing that event and saving.
     */
    method Attend(o: Options, answers: seq<Answer>, fuse: Option<nat>)
      returns (r: Outcome, ghost from: nat, ghost end: nat)
      requires Valid() && At(o.cursor) <= visible
      modifies this
      ensures Valid() && old(visible) <= visible && from <= end <= visible
      ensures Quiet(answers, old(visible)) ==> visible == old(visible)
      ensures places == old(places) + Matching(log, o.binding.types, from, end)
      ensures !o.fromNow ==> from == old(Resume(file, o.cursor))
      ensures !o.fromNow ==> Resume(file, o.cursor) == end || Repeats(log, file, o, r, from, end)
      ensures o.fromNow ==> file == old(file) || Resume(file, o.cursor) == end || Repeats(log, file, o, r, from, end)
      ensures o.fromNow && file == old(file) ==> places == old(places)
      ensures Follows(o, old(file), file)
      ensures fuse.None? && r.Killed? ==> !Repeats(log, file, o, r, from, end)
      ensures r.Finished? ==>
                && file.Some? && Resume(file, o.cursor) == end
                && r.emitted == |Matching(log, o.binding.types, from, end)|
                && (o.maxEvents.Some? ==> r.emitted <= o.maxEvents.value)
      ensures HonestOnce(o, answers, old(visible)) && Honest(old(file), old(visible)) && r.Finished? ==>
                Honest(file, visible) && (end == visible || (o.maxEvents.Some? && r.emitted == o.maxEvents.value))
      ensures !Startable(o, old(file)) ==>
                r == Refused && file == old(file) && visible == old(visible) && output == old(output)
      ensures Completing(o, answers, old(file), old(visible), fuse) ==> r.Finished?
      ensures o.fromNow && file != old(file) ==> old(visible) <= from
      ensures r.Finished? && !o.once ==> o.maxEvents == Some(r.emitted)
      ensures Startable(o, old(file)) && Benign(answers) && Plain(answers) ==> !r.Refused?
      ensures !o.fromNow && o.maxPages.Some? && Startable(o, old(file)) ==>
                end <= At(Cursor(old(file), o)) + Takes(answers, 0, o.maxPages.value)
      ensures Fair(o, answers, old(file), old(visible)) && o.maxPages.Some? && r.Finished? ==>
                end == Min(visible, At(Cursor(old(file), o)) + Takes(answers, 0, o.maxPages.value))
    {
      hide Matching, Matches, Written, Quiet, Steady, Plain, Flagged, Takes, Benign;
      SettledNone(log, o.binding.types, Resume(file, o.cursor), places);
      WrittenBounds(log, visible, places, output);
      from := Resume(file, o.cursor);
      end := from;
      if !ValidOptions(o) { return Refused, from, end; }
      var loaded := LoadState(file, o.binding, o.cursor);
      if loaded.None? || (o.fromNow && (o.cursor.Some? || file.Some?)) { return Refused, from, end; }
      var state := loaded.value;
      var next, left := 0, fuse;
      if o.fromNow {
        var stopped;
        stopped, state, next, left := FromNow(o, answers, fuse);
        if stopped.Some? { return stopped.value, from, end; }
        from := Position(state);
        end := from;
      }
      ghost var count;
      r, end, count := Poll(o, state, answers, next, left);
    }

    /**
     * listen, on the log itself. The lines added are the log's events at increasing places; of
     * the places between the start and the end of the run exactly those are among them whose
     * event the filter names, or all of them without a filter.
     */
    method Listen(o: Options, answers: seq<Answer>, fuse: Option<nat>)
      returns (r: Outcome, ghost from: nat, ghost end: nat)
      requires Valid() && At(o.cursor) <= visible
      modifies this
      ensures Valid() && |old(places)| <= |places| == |output| && old(places) <= places && old(output) <= output
      ensures from <= end <= visible <= |log|
      ensures forall i :: |old(places)| <= i < |places| ==> from <= places[i] < end && output[i] == log[places[i]]
      ensures forall i, j :: |old(places)| <= i < j < |places| ==> places[i] < places[j]
      ensures forall p: nat :: from <= p < end ==>
                (p in places[|old(places)|..] <==>
                   o.binding.types == {} || (log[p].kind.Some? && log[p].kind.value in o.binding.types))
      ensures !o.fromNow ==> from == old(Resume(file, o.cursor))
      ensures r.Finished? ==>
                && r.emitted == |places| - |old(places)| && (o.maxEvents.Some? ==> r.emitted <= o.maxEvents.value)
                && file.Some? && file.value.binding == o.binding && Position(file.value) == end
      ensures r.Killed? && !o.fromNow && Resume(file, o.cursor) != end ==>
                Resume(file, o.cursor) + 1 == end && |old(places)| < |places| && places[|places| - 1] == end - 1
      ensures var refused :=
                || o.maxEvents == Some(0) || o.maxPages == Some(0) || (o.maxPages.Some? && !o.once) || "" in o.binding.types
                || (old(file).Some? && (old(file).value.binding != o.binding || (o.cursor.Some? && o.cursor != old(file).value.cursor)))
                || (o.fromNow && (o.cursor.Some? || old(file).Some?));
              && (refused ==> r == Refused && file == old(file) && visible == old(visible) && output == old(output))
              && (!refused && HonestOnce(o, answers, old(visible)) && Honest(old(file), old(visible))
                  && Steady(answers) && fuse.None? && |answers| > old(visible)
                  ==> r.Finished?)
      ensures HonestOnce(o, answers, old(visible)) && Honest(old(file), old(visible)) && r.Finished? ==>
                end == visible == old(visible) || (o.maxEvents.Some? && r.emitted == o.maxEvents.value)
    {
      ghost var before, printed, file0, visible0 := places, output, file, visible;
      hide Matching, Matches, Quiet, Steady, Plain, Flagged, Sound, LoadState, ValidOptions, Startable, Settled, Repeats, Written,
        HonestOnce, Honest, Position, Completing, Fair, Takes, Cursor, At, Follows, Benign, Valid;

      Lines();
      StartableIff(o, file);
      r, from, end := Attend(o, answers, fuse);
      Lines();
      Added(log, o.binding.types, visible0, visible, before, printed, places, output, from, end);
      EndMeans(o, answers, file0, visible0, fuse, r, from, end);
    }

    /** Every line written so far is the log's event at its place. */
    lemma Lines()
      requires Valid()
      ensures Written(log, visible, places, output) && visible <= |log| && |places| == |output|
    {
    }

    /** What the end of a run says about the checkpoint. */
    lemma EndMeans(o: Options, answers: seq<Answer>, file0: Option<State>, visible0: nat, fuse: Option<nat>,
                   r: Outcome, from: nat, end: nat)
      ensures Completing(o, answers, file0, visible0, fuse) <==>
                Startable(o, file0) && HonestOnce(o, answers, visible0) && Honest(file0, visible0)
                && Steady(answers) && fuse.None? && |answers| > visible0
      ensures Repeats(log, file, o, r, from, end) ==>
                r.Killed? && from < end <= |log| && Resume(file, o.cursor) + 1 == end && Matches(o.binding.types, log[end - 1])
      ensures file.Some? ==> Resume(file, o.cursor) == Position(file.value)
      ensures Follows(o, file0, file) && Startable(o, file0) && file.Some? ==> file.value.binding == o.binding
      ensures HonestOnce(o, answers, visible0) ==> Quiet(answers, visible0)
    {
    }

    /**
     * The inner loop: print what passes the filter, drop the item, save, and stop on the
     * event limit. `r` is None when the page was used up.
     */
    method Drain(o: Options, start: State, already: nat, fuse: Option<nat>)
      returns (r: Option<Outcome>, state: State, emitted: nat, left: Option<nat>, ghost end: nat)
      requires Valid() && Sound(log, visible, start) && start.binding == o.binding
      requires Resume(file, o.cursor) == Position(start)
      requires o.maxEvents.Some? ==> already < o.maxEvents.value
      modifies this`file, this`output, this`places
      ensures Valid() && Sound(log, visible, state) && Position(start) <= end <= visible
      ensures state == start.(pending := state.pending) && end == Position(state)
      ensures r.None? ==> state.pending == []
      ensures r.None? || r.value.Finished? ==> Resume(file, o.cursor) == end
      ensures r.Some? && r.value.Finished? ==> o.maxEvents == Some(emitted) && r.value.emitted == emitted && file == Some(state)
      ensures r.None? && o.maxEvents.Some? ==> emitted < o.maxEvents.value
      ensures r.Some? ==> !r.value.Refused?
      ensures r == Some(Killed) ==> fuse.Some? && (Resume(file, o.cursor) == end || Repeats(log, file, o, Killed, Position(start), end))
      ensures emitted >= already
      ensures Settled(log, o.binding.types, Position(start), end, old(places), places, emitted - already)
      ensures file == old(file) || (file.Some? && file.value.binding == o.binding)
      ensures old(file).Some? ==> file.Some?
      ensures fuse.None? ==> left.None?
    {
      hide Matching, Matches, Sound, Written, Settled;
      state, emitted, left := start, already, fuse;
      end := Position(start);
      SoundBounds(log, visible, start);
      SettledNone(log, o.binding.types, end, places);
      while state.pending != []
        invariant Valid() && Sound(log, visible, state) && state == start.(pending := state.pending)
        invariant fuse.None? ==> left.None?
        invariant Position(start) <= end == Position(state) == Resume(file, o.cursor) <= visible
        invariant emitted >= already
        invariant Settled(log, o.binding.types, Position(start), end, old(places), places, emitted - already)
        invariant o.maxEvents.Some? ==> emitted < o.maxEvents.value
        invariant file == old(file) || (file.Some? && file.value.binding == o.binding)
        invariant old(file).Some? ==> file.Some?
        decreases |state.pending|
      {
        var item := state.pending[0];
        DropFirst(log, visible, state);
        SettledOne(log, o.binding.types, Position(start), end, old(places), places, emitted - already);
        var matched := Matches(o.binding.types, item);
        if matched {
          if left == Some(0) { return Some(Killed), state, emitted, left, end; }
          left := Spend(left);
          WriteOne(log, visible, places, output, end);
          output := output + [item];
          places := places + [end];
          emitted := emitted + 1;
        }
        end := end + 1;
        var rest := state.(pending := state.pending[1..]);
        if left == Some(0) {
          if matched { state := rest; } else { end := end - 1; }
          return Some(Killed), state, emitted, left, end;
        }
        left := Spend(left);
        state := rest;
        file := Some(state);
        if o.maxEvents.Some? && emitted >= o.maxEvents.value {
          return Some(Finished(emitted)), state, emitted, left, end;
        }
      }
      return None, state, emitted, left, end;
    }

    /** Takes the next page into an empty state; a page that claims more but stays put is refused. */
    method Refill(state: State, answers: seq<Answer>, start: nat)
      returns (full: Option<State>, next: nat, rejected: bool)
      requires Valid() && start <= |answers| && Sound(log, visible, state) && state.pending == []
      modifies this`visible
      ensures Valid() && old(visible) <= visible
      ensures Quiet(answers, old(visible)) ==> visible == old(visible)
      ensures start <= next <= |answers| && (full.Some? ==> start < next)
      ensures full.None? && !rejected ==> next == |answers|
      ensures full.Some? ==>
                && Sound(log, visible, full.value) && full.value.binding == state.binding
                && Position(full.value) == Position(state)
                && Served(answers, start, next) && !(full.value.hasMore && full.value.cursor == state.cursor)
                && At(full.value.cursor) == Min(At(state.cursor) + answers[next - 1].take, visible)
                && (Plain(answers) ==> full.value.hasMore == (At(full.value.cursor) < visible))
      ensures rejected ==>
                && full.None? && start < next
                && (answers[next - 1].Rejected?
                    || (answers[next - 1].Page? && Some(Min(At(state.cursor) + answers[next - 1].take, visible)) == state.cursor
                        && (answers[next - 1].more == Some(true) || (answers[next - 1].more.None? && At(state.cursor) < visible))))
      ensures Benign(answers) && Plain(answers) ==> !rejected
      ensures Steady(answers) && Plain(answers) && start < |answers| ==>
                && full.Some? && next == start + 1
                && (At(full.value.cursor) > At(state.cursor) || At(full.value.cursor) == visible)
    {
      SteadyAt(answers, start);
      hide Sound, Written, Quiet, Plain, Steady;
      SoundBounds(log, visible, state);
      var page;
      page, next, rejected := Read(state.cursor, false, answers, start);
      if page.None? { return None, next, rejected; }
      if page.value.hasMore && page.value.cursor == state.cursor { return None, next, true; }
      WrittenBounds(log, visible, places, output);
      SoundGrows(log, old(visible), visible, state);
      NewPage(log, visible, state, page.value);
      full := Some(state.(cursor := page.value.cursor, pending := page.value.pending, hasMore := page.value.hasMore));
    }

    /** The rest of one turn of the polling loop: use up the page, save, and apply the limits. */
    method Turn(o: Options, start: State, already: nat, pages: nat, fuse: Option<nat>)
      returns (r: Option<Outcome>, state: State, emitted: nat, left: Option<nat>, ghost end: nat)
      requires Valid() && Sound(log, visible, start) && start.binding == o.binding
      requires Resume(file, o.cursor) == Position(start)
      requires o.maxEvents.Some? ==> already < o.maxEvents.value
      modifies this`file, this`output, this`places
      ensures Valid() && Sound(log, visible, state) && Position(start) <= end <= visible
      ensures state == start.(pending := state.pending) && end == Position(state) && emitted >= already
      ensures Settled(log, o.binding.types, Position(start), end, old(places), places, emitted - already)
      ensures r != Some(Killed) ==> file == Some(state)
      ensures r == Some(Killed) ==> fuse.Some? && (Resume(file, o.cursor) == end || Repeats(log, file, o, Killed, Position(start), end))
      ensures r.None? ==> state.pending == [] && !Over(o, pages, state)
      ensures r.None? && o.maxEvents.Some? ==> emitted < o.maxEvents.value
      ensures r.Some? && r.value.Finished? ==>
                && r.value.emitted == emitted && (o.maxEvents.Some? ==> emitted <= o.maxEvents.value)
                && (o.maxEvents == Some(emitted) || (state.pending == [] && Over(o, pages, state)))
      ensures r.Some? ==> !r.value.Refused?
      ensures file == old(file) || (file.Some? && file.value.binding == o.binding)
      ensures old(file).Some? ==> file.Some?
      ensures fuse.None? ==> left.None?
    {
      hide Matching, Matches, Sound, Written, Settled, Position;
      r, state, emitted, left, end := Drain(o, start, already, fuse);
      SoundBounds(log, visible, state);
      if r.Some? { return; }
      if left == Some(0) {
        r := Some(Killed);
        return;
      }
      left := Spend(left);
      file := Some(state);
      if (o.maxPages.Some? && pages >= o.maxPages.value) || (!state.hasMore && o.once) {
        r := Some(Finished(emitted));
      }
    }

    /** One turn of the polling loop: a page if none is pending, and what follows from it. */
    method Round(o: Options, start: State, answers: seq<Answer>, first: nat, already: nat, pages: nat, fuse: Option<nat>)
      returns (stop: Option<Outcome>, state: State, next: nat, emitted: nat, taken: nat, left: Option<nat>, ghost end: nat)
      requires Valid() && Sound(log, visible, start) && start.binding == o.binding && first <= |answers|
      requires Resume(file, o.cursor) == Position(start)
      requires o.maxEvents.Some? ==> already < o.maxEvents.value
      modifies this
      ensures Valid() && old(visible) <= visible && Sound(log, visible, state) && state.binding == o.binding
      ensures Quiet(answers, old(visible)) ==> visible == old(visible)
      ensures next <= |answers| && Position(start) <= end == Position(state) <= visible && emitted >= already
      ensures Settled(log, o.binding.types, Position(start), end, old(places), places, emitted - already)
      ensures Resume(file, o.cursor) == end || (fuse.Some? && Repeats(log, file, o, Killed, Position(start), end) && stop == Some(Killed))
      ensures Follows(o, old(file), file) && (fuse.None? ==> left.None?)
      ensures stop.None? || stop.value.Finished? ==> file == Some(state)
      ensures stop.None? ==>
                && |answers| - next <= |answers| - first && state.pending == [] && (start.pending == [] ==> next > first)
                && !Over(o, taken, state) && (o.maxEvents.Some? ==> emitted < o.maxEvents.value)
      ensures stop.Some? && stop.value.Finished? ==>
                && stop.value.emitted == emitted && (o.maxEvents.Some? ==> emitted <= o.maxEvents.value)
                && (o.maxEvents == Some(emitted) || (state.pending == [] && Over(o, taken, state)))
      ensures Fetched(answers, first, next, start, state, pages, taken, stop, visible)
      ensures Benign(answers) && Plain(answers) ==> stop != Some(Refused)
      ensures var plain := Plain(answers) && Quiet(answers, old(visible)) && (start.pending != [] ==> Flagged(start, old(visible)));
              plain && (stop.None? || stop.value.Finished?) ==> Flagged(state, visible)
      ensures Plain(answers) && Quiet(answers, old(visible)) && Lively(answers, first, start, old(visible), fuse) ==>
                && (stop.None? || stop.value.Finished?)
                && (At(state.cursor) == visible || Lively(answers, next, state, visible, left))
    {
      hide Matching, Matches, Sound, Written, Settled, Quiet, Plain, Position, Steady, Benign, Served, Over, Takes;
      state, next, emitted, taken, left := start, first, already, pages, fuse;
      SoundBounds(log, visible, start);
      if state.pending == [] {
        var full, after, rejected := Refill(state, answers, next);
        if full.None? {
          end := Position(start);
          SettledNone(log, o.binding.types, end, places);
          WrittenBounds(log, visible, places, output);
          SoundGrows(log, old(visible), visible, state);
          return Some(if rejected then Refused else Killed), state, next, emitted, taken, left, end;
        }
        next := after;
        taken := taken + 1;
        state := full.value;
        SoundBounds(log, visible, state);
      }
      stop, state, emitted, left, end := Turn(o, state, emitted, taken, left);
    }

    /** The polling loop of `listen`, from the loaded state on. */
    method Poll(o: Options, start: State, answers: seq<Answer>, first: nat, fuse: Option<nat>)
      returns (r: Outcome, ghost end: nat, ghost count: nat)
      requires Valid() && Sound(log, visible, start) && start.binding == o.binding && ValidOptions(o)
      requires first <= |answers| && Resume(file, o.cursor) == Position(start)
      requires file == Some(start) || (file == None && start == State(o.binding, o.cursor, [], false))
      modifies this
      ensures Valid() && old(visible) <= visible && Position(start) <= end <= visible
      ensures Quiet(answers, old(visible)) ==> visible == old(visible)
      ensures Settled(log, o.binding.types, Position(start), end, old(places), places, count)
      ensures r.Finished? ==> count == r.emitted
      ensures Resume(file, o.cursor) == end || Repeats(log, file, o, r, Position(start), end)
      ensures Follows(o, old(file), file)
      ensures fuse.None? && r.Killed? ==> !Repeats(log, file, o, r, Position(start), end)
      ensures r.Finished? ==>
                && file.Some? && Resume(file, o.cursor) == end
                && (o.maxEvents.Some? ==> r.emitted <= o.maxEvents.value)
      ensures HonestOnce(o, answers, old(visible)) && Honest(old(file), old(visible)) && r.Finished? ==>
                Honest(file, visible) && (end == visible || (o.maxEvents.Some? && r.emitted == o.maxEvents.value))
      ensures var honest := HonestOnce(o, answers, old(visible)) && Honest(old(file), old(visible));
              honest && Lively(answers, first, start, old(visible), fuse) ==> r.Finished?
      ensures r.Finished? && !o.once ==> o.maxEvents == Some(r.emitted)
      ensures Benign(answers) && Plain(answers) ==> !r.Refused?
      ensures o.maxPages.Some? ==> end <= At(start.cursor) + Takes(answers, first, o.maxPages.value)
      ensures Fair(o, answers, old(file), old(visible)) && o.maxPages.Some? && r.Finished? ==>
                end == Min(visible, At(start.cursor) + Takes(answers, first, o.maxPages.value))
    {
      hide Matching, Matches, Sound, Written, Settled, Quiet, Plain, Position, Steady, Within, Fetched, Takes, Benign;
      var state, next, left := start, first, fuse;
      var emitted: nat, pages: nat := 0, 0;
      ghost var honest := HonestOnce(o, answers, visible) && Honest(file, visible);
      ghost var fair := Fair(o, answers, file, visible);
      ghost var quiet, wide := Quiet(answers, visible), visible;
      ghost var lively := honest && Lively(answers, first, start, visible, fuse);
      ghost var types := o.binding.types;
      SoundBounds(log, visible, start);
      end := Position(start);
      SettledNone(log, types, end, places);
      WithinStart(o, answers, first, start, wide, quiet);
      while true
        invariant Valid() && old(visible) <= visible && Sound(log, visible, state) && state.binding == o.binding
        invariant Quiet(answers, old(visible)) ==> visible == old(visible)
        invariant next <= |answers| && (fuse.None? ==> left.None?)
        invariant Position(start) <= end == Position(state) == Resume(file, o.cursor) <= visible
        invariant Settled(log, types, Position(start), end, old(places), places, emitted)
        invariant o.maxEvents.Some? ==> emitted < o.maxEvents.value
        invariant Follows(o, old(file), file)
        invariant state == start || file == Some(state)
        invariant honest || fair ==> (state.pending != [] ==> Flagged(state, visible))
        invariant Within(o, answers, first, next, start, state, pages, wide, quiet)
        invariant lively ==> Lively(answers, next, state, visible, left)
        decreases |answers| - next, |state.pending|
      {
        ghost var before, half, was, at, used := places, emitted, next, state, pages;
        SoundBounds(log, visible, state);
        var stop;
        ghost var reached;
        stop, state, next, emitted, pages, left, reached := Round(o, state, answers, next, emitted, pages, left);
        SoundBounds(log, visible, state);
        PageStep(o, answers, first, was, next, start, at, state, used, pages, stop, wide, visible, quiet);
        SettledMore(log, types, Position(start), end, reached, old(places), before, places, half, emitted - half);
        end := reached;
        if stop.Some? {
          r := stop.value;
          break;
        }
      }
      count := emitted;
    }
  }

  lemma SteadyAt(answers: seq<Answer>, k: nat)
    ensures Steady(answers) && k < |answers| ==> answers[k].Page? && answers[k].take > 0
  {
  }

  lemma SettledNone(log: seq<Event>, types: set<string>, from: nat, now: seq<nat>)
    ensures Settled(log, types, from, from, now, now, 0)
  {
  }

  lemma SettledOne(log: seq<Event>, types: set<string>, from: nat, end: nat,
                   before: seq<nat>, now: seq<nat>, count: nat)
    requires from <= end < |log| && Settled(log, types, from, end, before, now, count)
    ensures Matches(types, log[end]) ==> Settled(log, types, from, end + 1, before, now + [end], count + 1)
    ensures !Matches(types, log[end]) ==> Settled(log, types, from, end + 1, before, now, count)
  {
    hide Matches;
  }

  lemma SettledMore(log: seq<Event>, types: set<string>, from: nat, mid: nat, end: nat,
                    before: seq<nat>, half: seq<nat>, now: seq<nat>, m: nat, n: nat)
    requires from <= mid <= end <= |log|
    requires Settled(log, types, from, mid, before, half, m) && Settled(log, types, mid, end, half, now, n)
    ensures Settled(log, types, from, end, before, now, m + n)
  {
    hide Matching;
    MatchingSplit(log, types, from, mid, end);
  }

  lemma WriteOne(log: seq<Event>, visible: nat, places: seq<nat>, output: seq<Event>, place: nat)
    requires Written(log, visible, places, output) && place < visible
    ensures Written(log, visible, places + [place], output + [log[place]])
  {
  }

  lemma SoundBounds(log: seq<Event>, visible: nat, s: State)
    requires Sound(log, visible, s)
    ensures |s.pending| <= At(s.cursor) <= visible <= |log| && Position(s) <= At(s.cursor)
    ensures s.pending == [] ==> Position(s) == At(s.cursor)
  {
  }

  lemma SoundGrows(log: seq<Event>, visible: nat, wider: nat, s: State)
    requires Sound(log, visible, s) && visible <= wider <= |log|
    ensures Sound(log, wider, s)
  {
  }

  lemma WrittenBounds(log: seq<Event>, visible: nat, places: seq<nat>, output: seq<Event>)
    requires Written(log, visible, places, output)
    ensures visible <= |log|
  {
  }

  /** Dropping the first pending event keeps the state sound. */
  lemma DropFirst(log: seq<Event>, visible: nat, s: State)
    requires Sound(log, visible, s) && s.pending != []
    ensures Sound(log, visible, s.(pending := s.pending[1..])) && s.pending[0] == log[Position(s)]
    ensures Position(s) < visible
  {
  }

  lemma NewPage(log: seq<Event>, visible: nat, s: State, page: State)
    requires Sound(log, visible, s) && s.pending == []
    requires At(s.cursor) <= At(page.cursor) <= visible && page.pending == log[At(s.cursor)..At(page.cursor)]
    ensures var t := s.(cursor := page.cursor, pending := page.pending, hasMore := page.hasMore);
            Sound(log, visible, t) && Position(t) == Position(s)
  {
  }

  // ---------- many runs over one checkpoint ----------

  /** The written places with every immediate repetition dropped. */
  function Collapse(places: seq<nat>): (r: seq<nat>)
    ensures |r| <= |places| && (r == [] <==> places == [])
    ensures places != [] ==> r[|r| - 1] == places[|places| - 1]
  {
    if |places| < 2 then places
    else
      var rest := places[..|places| - 1];
      if places[|places| - 1] == places[|places| - 2] then Collapse(rest)
      else Collapse(rest) + [places[|places| - 1]]
  }

  predicate Increasing(s: seq<nat>) {
    forall i, j :: 0 <= i < j < |s| ==> s[i] < s[j]
  }

  lemma {:induction false} MatchingIncreases(log: seq<Event>, types: set<string>, lo: nat, hi: nat)
    ensures Increasing(Matching(log, types, lo, hi))
    decreases hi
  {
    hide Matches;
    if lo < hi <= |log| {
      MatchingIncreases(log, types, lo, hi - 1);
    }
  }

  lemma CollapseSnoc(s: seq<nat>, x: nat)
    ensures Collapse(s + [x]) == if s != [] && s[|s| - 1] == x then Collapse(s) else Collapse(s) + [x]
  {
    assert (s + [x])[..|s|] == s;
  }

  /** What `b` adds after `a`: all of it, except a first element that `a` already ends with. */
  function AfterSeam(a: seq<nat>, b: seq<nat>): seq<nat> {
    if a != [] && b != [] && a[|a| - 1] == b[0] then b[1..] else b
  }

  lemma AfterSeamSnoc(a: seq<nat>, c: seq<nat>, x: nat)
    ensures AfterSeam(a, []) == []
    ensures c != [] ==> AfterSeam(a, c + [x]) == AfterSeam(a, c) + [x]
    ensures c == [] ==> AfterSeam(a, c + [x]) == if a != [] && a[|a| - 1] == x then [] else [x]
  {
    if c != [] && a != [] && a[|a| - 1] == c[0] {
      assert (c + [x])[1..] == c[1..] + [x];
    }
  }

  /** Appending an increasing stretch only merges at the seam. */
  lemma {:induction false} CollapseAppend(a: seq<nat>, b: seq<nat>)
    requires Increasing(b)
    ensures Collapse(a + b) == Collapse(a) + AfterSeam(a, b)
    decreases |b|
  {
    hide Collapse, AfterSeam;
    if b == [] {
      assert a + b == a;
      AfterSeamSnoc(a, [], 0);
    } else {
      var c, x := b[..|b| - 1], b[|b| - 1];
      assert b == c + [x] && a + b == (a + c) + [x];
      CollapseSnoc(a + c, x);
      CollapseAppend(a, c);
      AfterSeamSnoc(a, c, x);
      if c == [] {
        assert a + c == a;
      } else {
        assert (a + c)[|a + c| - 1] == b[|b| - 2];
      }
    }
  }

  /**
   * What a reader has written since `origin`, with repetitions dropped, is the filtered log up
   * to where it resumes, or just past the one event that is printed but not saved; every
   * surplus line is paid for by a crash.
   */
  ghost predicate Complete(log: seq<Event>, types: set<string>, origin: nat, resume: nat,
                           written: seq<nat>, crashes: nat, ahead: bool)
  {
    var reach := if ahead then resume + 1 else resume;
    && origin <= resume && reach <= |log|
    && (ahead ==> Matches(types, log[resume]))
    && Collapse(written) == Matching(log, types, origin, reach)
    && |written| + (reach - resume) <= |Matching(log, types, origin, reach)| + crashes
  }

  /** A run that starts where the last one left off keeps the stream complete. */
  lemma CompleteStep(log: seq<Event>, types: set<string>, origin: nat, resume: nat, written: seq<nat>,
                     crashes: nat, ahead: bool, end: nat)
    requires Complete(log, types, origin, resume, written, crashes, ahead) && resume <= end <= |log|
    ensures var now := written + Matching(log, types, resume, end);
            && (resume < end || !ahead ==> Complete(log, types, origin, end, now, crashes, false))
            && (resume == end ==> Complete(log, types, origin, end, now, crashes, ahead))
  {
    hide Collapse, Matches;
    if resume == end {
      assert Matching(log, types, resume, end) == [];
      assert written + [] == written;
    } else if ahead {
      StepAhead(log, types, origin, resume, written, end);
    } else {
      StepLevel(log, types, origin, resume, written, end);
    }
  }

  lemma StepLevel(log: seq<Event>, types: set<string>, origin: nat, resume: nat, written: seq<nat>, end: nat)
    requires origin <= resume <= end <= |log|
    requires Collapse(written) == Matching(log, types, origin, resume)
    ensures Collapse(written + Matching(log, types, resume, end)) == Matching(log, types, origin, end)
    ensures |Matching(log, types, origin, end)| ==
            |Matching(log, types, origin, resume)| + |Matching(log, types, resume, end)|
  {
    hide Matching, Matches;
    var more := Matching(log, types, resume, end);
    MatchingSplit(log, types, origin, resume, end);
    MatchingIncreases(log, types, resume, end);
    CollapseAppend(written, more);
    if written != [] && more != [] {
      var c := Collapse(written);
      assert c[|c| - 1] < resume <= more[0];
    }
  }

  lemma StepAhead(log: seq<Event>, types: set<string>, origin: nat, resume: nat, written: seq<nat>, end: nat)
    requires origin <= resume < end <= |log| && Matches(types, log[resume])
    requires Collapse(written) == Matching(log, types, origin, resume + 1)
    ensures Collapse(written + Matching(log, types, resume, end)) == Matching(log, types, origin, end)
    ensures |Matching(log, types, origin, end)| + 1 ==
            |Matching(log, types, origin, resume + 1)| + |Matching(log, types, resume, end)|
  {
    hide Matching, Matches;
    var more, tail := Matching(log, types, resume, end), Matching(log, types, resume + 1, end);
    MatchingSplit(log, types, origin, resume, resume + 1);
    MatchingSplit(log, types, origin, resume + 1, end);
    MatchingSplit(log, types, resume, resume + 1, end);
    MatchingOne(log, types, resume);
    MatchingIncreases(log, types, resume, end);
    CollapseAppend(written, more);
    var c := Collapse(written);
    assert c[|c| - 1] == resume == more[0];
    assert more[1..] == tail;
  }

  /** A crash between print and save: the event just printed is the one printed ahead. */
  lemma CompleteCrash(log: seq<Event>, types: set<string>, origin: nat, end: nat, written: seq<nat>, crashes: nat)
    requires origin < end <= |log| && Matches(types, log[end - 1])
    requires Complete(log, types, origin, end, written, crashes, false)
    ensures Complete(log, types, origin, end - 1, written, crashes + 1, true)
  {
  }

  /** A start cursor is only for a reader without a checkpoint. */
  function From(file: Option<State>, cursor: Option<nat>): Option<nat> {
    if file.Some? then None else cursor
  }

  datatype Run = Run(
    once: bool, maxEvents: Option<nat>, maxPages: Option<nat>, fromNow: bool, answers: seq<Answer>, fuse: Option<nat>)

  /** The runs began where the checkpoint or the cursor said, or one of them started from now. */
  predicate Began(origin: nat, early: seq<nat>, resume: nat, file: Option<State>, visible: nat, runs: seq<Run>) {
    || (origin == resume && early == [])
    || (file.None? && visible <= origin && exists run <- runs :: run.fromNow)
  }

  /**
   * Any number of runs that share one checkpoint, crashes anywhere: nothing is skipped, the
   * order is kept, and each crash repeats at most the one event that was printed but not saved.
   * A run that starts from now is refused once there is a checkpoint; before that it moves the
   * origin, and `early` is what crashed runs had printed until then, at most a line for a crash.
   */
  method RunAll(reader: Reader, binding: Binding, cursor: Option<nat>, runs: seq<Run>)
    returns (ghost origin: nat, ghost early: seq<nat>, ghost crashes: nat, ghost ahead: bool, ghost written: seq<nat>)
    requires reader.Valid() && At(cursor) <= reader.visible
    modifies reader
    ensures reader.Valid() && reader.places == old(reader.places) + early + written && |early| + crashes <= |runs|
    ensures Complete(reader.log, binding.types, origin, Resume(reader.file, cursor), written, crashes, ahead)
    ensures Began(origin, early, old(Resume(reader.file, cursor)), old(reader.file), old(reader.visible), runs)
    ensures (forall run <- runs :: run.fuse.None?) ==> !ahead && crashes == 0 && early == []
  {
    hide Complete, Matching, Matches, Settled, Sound, Written, Completing, HonestOnce, Honest, Quiet, ValidOptions, LoadState,
      Position;
    origin, early := Resume(reader.file, cursor), [];
    crashes, ahead, written := 0, false, [];
    ResumeBounds(reader, cursor);
    CompleteNone(reader.log, binding.types, origin);
    for i := 0 to |runs|
      invariant reader.Valid() && At(cursor) <= reader.visible && old(reader.visible) <= reader.visible
      invariant reader.places == old(reader.places) + early + written && |early| + crashes <= i
      invariant Complete(reader.log, binding.types, origin, Resume(reader.file, cursor), written, crashes, ahead)
      invariant Began(origin, early, old(Resume(reader.file, cursor)), old(reader.file), old(reader.visible), runs)
      invariant reader.file.None? ==> old(reader.file).None? && origin == At(cursor) && early == []
      invariant (forall run <- runs :: run.fuse.None?) ==> !ahead && crashes == 0 && early == []
    {
      assert runs[i] in runs;
      ghost var file, places := reader.file, reader.places;
      var start := if runs[i].fromNow then None else From(reader.file, cursor);
      var o := Options(binding, start, runs[i].once, runs[i].maxEvents, runs[i].maxPages, runs[i].fromNow);
      ghost var from, end;
      var r;
      r, from, end := reader.Attend(o, runs[i].answers, runs[i].fuse);
      ResumeBounds(reader, cursor);
      WrittenBounds(reader.log, reader.visible, reader.places, reader.output);
      if runs[i].fromNow && reader.file == file {
        SamePlaces(places, Matching(reader.log, binding.types, from, end));
      } else {
        if runs[i].fromNow {
          EarlyFew(reader.log, binding.types, origin, written, crashes, ahead);
          origin, early := from, written;
          crashes, ahead, written := 0, false, [];
          CompleteNone(reader.log, binding.types, origin);
        }
        ghost var repeats := Repeats(reader.log, reader.file, o, r, from, end);
        CompleteRun(reader.log, binding.types, origin, from, written, crashes, ahead, end, repeats, Resume(reader.file, cursor));
        written := written + Matching(reader.log, binding.types, from, end);
        crashes, ahead := if repeats then crashes + 1 else crashes, repeats || (ahead && from == end);
      }
    }
  }

  /** One run more, killed between print and save or not. */
  lemma CompleteRun(log: seq<Event>, types: set<string>, origin: nat, from: nat, written: seq<nat>, crashes: nat,
                    ahead: bool, end: nat, repeats: bool, resume: nat)
    requires Complete(log, types, origin, from, written, crashes, ahead) && from <= end <= |log|
    requires if repeats then from < end && resume + 1 == end && Matches(types, log[end - 1]) else resume == end
    ensures Complete(log, types, origin, resume, written + Matching(log, types, from, end),
                     if repeats then crashes + 1 else crashes, repeats || (ahead && from == end))
  {
    CompleteOrigin(log, types, origin, from, written, crashes, ahead);
    CompleteStep(log, types, origin, from, written, crashes, ahead, end);
    hide Complete, Matching;
    if repeats { CompleteCrash(log, types, origin, end, written + Matching(log, types, from, end), crashes); }
  }

  lemma SamePlaces(places: seq<nat>, more: seq<nat>)
    ensures places + more == places ==> more == []
  {
    assert |places + more| == |places| + |more|;
  }

  /** Before anything was saved, every line printed was printed by a crashed run. */
  lemma EarlyFew(log: seq<Event>, types: set<string>, origin: nat, written: seq<nat>, crashes: nat, ahead: bool)
    requires Complete(log, types, origin, origin, written, crashes, ahead)
    ensures |written| <= crashes
  {
    if ahead { MatchingOne(log, types, origin); }
  }

  lemma CompleteNone(log: seq<Event>, types: set<string>, origin: nat)
    requires origin <= |log|
    ensures Complete(log, types, origin, origin, [], 0, false)
  {
  }

  lemma CompleteOrigin(log: seq<Event>, types: set<string>, origin: nat, resume: nat,
                       written: seq<nat>, crashes: nat, ahead: bool)
    requires Complete(log, types, origin, resume, written, crashes, ahead)
    ensures origin <= resume <= |log|
  {
  }

  lemma ResumeBounds(reader: Reader, cursor: Option<nat>)
    requires reader.Valid() && At(cursor) <= reader.visible
    ensures Resume(reader.file, cursor) <= reader.visible <= |reader.log|
  {
  }

  // ---------- splitting a read ----------

  function Take(limit: Option<nat>, available: nat): nat {
    if limit.Some? then Min(limit.value, available) else available
  }

  /** How many events each of a chain of limited runs prints, when `available` are waiting. */
  function Shares(limits: seq<Option<nat>>, available: nat): (shares: seq<nat>)
    ensures |shares| == |limits|
  {
    if limits == [] then []
    else
      var first := Take(limits[0], available);
      [first] + Shares(limits[1..], available - first)
  }

  lemma {:induction false} SharesAppend(limits: seq<Option<nat>>, last: Option<nat>, available: nat)
    ensures Total(Shares(limits, available)) <= available
    ensures Shares(limits + [last], available) ==
            Shares(limits, available) + [Take(last, available - Total(Shares(limits, available)))]
    decreases |limits|
  {
    if limits == [] {
      assert limits + [last] == [last];
      assert [last][1..] == [];
    } else {
      var first := Take(limits[0], available);
      assert (limits + [last])[1..] == limits[1..] + [last];
      SharesAppend(limits[1..], last, available - first);
      assert Shares(limits, available)[1..] == Shares(limits[1..], available - first);
    }
  }

  function Total(s: seq<nat>): nat {
    if s == [] then 0 else s[0] + Total(s[1..])
  }

  lemma {:induction false} TotalAppend(s: seq<nat>, x: nat)
    ensures Total(s + [x]) == Total(s) + x
    decreases |s|
  {
    if s == [] {
      assert s + [x] == [x];
    } else {
      assert (s + [x])[1..] == s[1..] + [x];
      TotalAppend(s[1..], x);
    }
  }

  /** A finished honest run takes its share of what is waiting, and leaves the rest. */
  lemma RunTakesShare(log: seq<Event>, types: set<string>, from: nat, end: nat, visible: nat, limit: Option<nat>, emitted: nat)
    requires from <= end <= visible <= |log| && emitted == |Matching(log, types, from, end)|
    requires limit.Some? ==> emitted <= limit.value
    requires end == visible || limit == Some(emitted)
    ensures emitted == Take(limit, |Matching(log, types, from, visible)|)
    ensures Matching(log, types, from, visible) == Matching(log, types, from, end) + Matching(log, types, end, visible)
    ensures emitted + |Matching(log, types, end, visible)| == |Matching(log, types, from, visible)|
  {
    hide Matches;
    MatchingSplit(log, types, from, end, visible);
  }

  /** Printed so far plus still waiting is everything there was, and `count` were printed. */
  predicate Split(all: seq<nat>, before: seq<nat>, now: seq<nat>, waiting: seq<nat>, count: nat) {
    now + waiting == before + all && |now| == |before| + count
  }

  lemma SplitMore(all: seq<nat>, before: seq<nat>, half: seq<nat>, now: seq<nat>,
                  waiting: seq<nat>, printed: seq<nat>, rest: seq<nat>, count: nat)
    requires Split(all, before, half, waiting, count)
    requires waiting == printed + rest && now == half + printed
    ensures Split(all, before, now, rest, count + |printed|)
    ensures rest == [] ==> now == before + all
  {
    assert half + (printed + rest) == (half + printed) + rest;
    if rest == [] { assert now + rest == now; }
  }

  /** What waits beyond the checkpoint, of what is visible. */
  ghost function Waiting(reader: Reader, types: set<string>, cursor: Option<nat>): seq<nat>
    reads reader
  {
    Matching(reader.log, types, Resume(reader.file, cursor), reader.visible)
  }

  /** The filter names no empty event, and the checkpoint, if there is one, is this reader's. */
  predicate Ours(binding: Binding, file: Option<State>) {
    "" !in binding.types && (file.Some? ==> file.value.binding == binding)
  }

  /** One of the runs: it takes its share of what waits, and finishes if it gets answers enough. */
  method TakeShare(reader: Reader, binding: Binding, cursor: Option<nat>, limit: Option<nat>, answers: seq<Answer>)
    returns (taken: Option<nat>, ghost printed: seq<nat>)
    requires reader.Valid() && At(cursor) <= reader.visible && Honest(reader.file, reader.visible)
    requires Plain(answers) && Quiet(answers, reader.visible)
    modifies reader
    ensures reader.Valid() && reader.visible == old(reader.visible)
    ensures taken.Some? ==>
              && Honest(reader.file, reader.visible) && reader.places == old(reader.places) + printed
              && old(Waiting(reader, binding.types, cursor)) == printed + Waiting(reader, binding.types, cursor)
              && taken.value == |printed| == Take(limit, |old(Waiting(reader, binding.types, cursor))|)
    ensures Ours(binding, old(reader.file)) ==> Ours(binding, reader.file)
    ensures Ours(binding, old(reader.file)) && (limit.Some? ==> limit.value >= 1) && Steady(answers) && |answers| > reader.visible ==>
              taken.Some?
  {
    hide Matching, Matches, Settled, Sound, Written, Plain, Quiet, Steady;
    ResumeBounds(reader, cursor);
    var o := Options(binding, From(reader.file, cursor), true, limit, None, false);
    ghost var from, end;
    var r;
    r, from, end := reader.Attend(o, answers, None);
    printed := Matching(reader.log, binding.types, from, end);
    if !r.Finished? { return None, printed; }
    WrittenBounds(reader.log, reader.visible, reader.places, reader.output);
    RunTakesShare(reader.log, binding.types, from, end, reader.visible, limit, r.emitted);
    return Some(r.emitted), printed;
  }

  /**
   * A crash-free read over a source that stands still, cut into runs by event limits. Whatever
   * the pages, the finished runs print exactly what one unlimited run would have printed of the
   * same stretch, each takes exactly its share, and printed plus waiting is conserved.
   */
  method SplitRead(reader: Reader, binding: Binding, cursor: Option<nat>, limits: seq<Option<nat>>, answers: seq<seq<Answer>>)
    returns (done: nat, ghost shares: seq<nat>)
    requires reader.Valid() && At(cursor) <= reader.visible && Honest(reader.file, reader.visible)
    requires |answers| == |limits| && forall a <- answers :: Plain(a) && Quiet(a, reader.visible)
    modifies reader
    ensures reader.Valid() && reader.visible == old(reader.visible) && done <= |limits|
    ensures var all := old(Waiting(reader, binding.types, cursor));
            done == |limits| ==>
              && shares == Shares(limits, |all|)
              && reader.places + Waiting(reader, binding.types, cursor) == old(reader.places) + all
              && |reader.places| == |old(reader.places)| + Total(shares)
              && (limits != [] && limits[|limits| - 1].None? ==> reader.places == old(reader.places) + all)
    ensures Answered(answers, old(reader.visible)) && Positive(limits) && Ours(binding, old(reader.file)) ==> done == |limits|
  {
    hide Matching, Matches, Settled, Sound, Written, Shares, Total, Plain, Quiet, Honest, Ours, Steady, Take;
    ghost var all := Waiting(reader, binding.types, cursor);
    ghost var waiting := all;
    done, shares := 0, [];
    SharesNone(|all|);
    while done < |limits|
      invariant reader.Valid() && At(cursor) <= reader.visible == old(reader.visible) && Honest(reader.file, reader.visible)
      invariant done <= |limits| && shares == Shares(limits[..done], |all|)
      invariant Split(all, old(reader.places), reader.places, waiting, Total(shares))
      invariant waiting == Waiting(reader, binding.types, cursor)
      invariant done > 0 && limits[done - 1].None? ==> reader.places == old(reader.places) + all
      invariant Ours(binding, old(reader.file)) ==> Ours(binding, reader.file)
    {
      assert answers[done] in answers && limits[done] in limits;
      ghost var before, printed := reader.places, [];
      var taken;
      taken, printed := TakeShare(reader, binding, cursor, limits[done], answers[done]);
      if taken.None? { return; }
      SharesAppend(limits[..done], limits[done], |all|);
      SplitRest(all, old(reader.places), before, waiting, Total(shares));
      assert limits[..done] + [limits[done]] == limits[..done + 1];
      TotalAppend(shares, taken.value);
      SplitMore(all, old(reader.places), before, reader.places, waiting, printed, Waiting(reader, binding.types, cursor), Total(shares));
      TookAll(limits[done], |waiting|);
      waiting := Waiting(reader, binding.types, cursor);
      shares := shares + [taken.value];
      done := done + 1;
    }
    assert limits[..done] == limits;
  }

  lemma SplitRest(all: seq<nat>, before: seq<nat>, now: seq<nat>, waiting: seq<nat>, count: nat)
    requires Split(all, before, now, waiting, count)
    ensures |waiting| == |all| - count
  {
    assert |now + waiting| == |before + all|;
  }

  lemma TookAll(limit: Option<nat>, available: nat)
    ensures limit.None? ==> Take(limit, available) == available
  {
  }

  predicate Positive(limits: seq<Option<nat>>) {
    forall limit <- limits :: limit.Some? ==> limit.value >= 1
  }

  /** Every run gets answers enough. */
  predicate Answered(answers: seq<seq<Answer>>, visible: nat) {
    forall a <- answers :: Steady(a) && |a| > visible
  }

  lemma SharesNone(available: nat)
    ensures Shares([], available) == [] && Total([]) == 0
  {
  }
}
