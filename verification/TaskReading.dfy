/**
 * What reading a task channel means, by kinds and pins alone: a proper lifecycle is reported in
 * full from any listing of it, and two legal successors are reported as a fork.
 */
module TaskReading {
  import opened Wrappers
  import opened TaskChannel
  import opened TaskWorker

  /** The sound items are exactly these records, each listed once. */
  ghost predicate ListedOnce(items: seq<Item>, c: seq<Record>) {
    forall x: Record :: multiset(items)[Sound(x)] == if x in c then 1 else 0
  }

  lemma {:induction false} RecordsCount(items: seq<Item>, x: Record)
    ensures multiset(Records(items))[x] == multiset(items)[Sound(x)]
    decreases |items|
  {
    if items != [] {
      var init, last := items[..|items| - 1], items[|items| - 1];
      assert items == init + [last];
      RecordsCount(init, x);
    }
  }

  lemma {:induction false} DistinctCount(c: seq<Record>, x: Record)
    requires Increasing(c)
    ensures multiset(c)[x] == if x in c then 1 else 0
    decreases |c|
  {
    if c != [] {
      var init, last := c[..|c| - 1], c[|c| - 1];
      assert c == init + [last];
      DistinctCount(init, x);
      assert last !in init;
    }
  }

  lemma SameRecords(items: seq<Item>, c: seq<Record>)
    requires Increasing(c) && ListedOnce(items, c)
    ensures multiset(Records(items)) == multiset(c) && |Records(items)| == |c|
  {
    forall x: Record ensures multiset(Records(items))[x] == multiset(c)[x] {
      RecordsCount(items, x);
      DistinctCount(c, x);
    }
    assert multiset(Records(items)) == multiset(c);
    SameSize(Records(items), c);
  }

  /** Every event of a lifecycle is allowed where it stands. */
  lemma {:induction false} LifecycleLinked(c: seq<Record>, i: nat)
    requires Lifecycle(c) && i <= |c|
    ensures Linked(c[i..], if i == 0 then Invited else After(c[i - 1].kind), if i == 0 then None else Some(c[i - 1].resource))
    decreases |c| - i
  {
    if i < |c| {
      LifecycleLinked(c, i + 1);
      assert c[i..][1..] == c[i + 1..];
      assert i > 0 ==> c[i - 1].kind != Deliver && c[i].kind != Accept;
    }
  }

  /**
   * One acceptance, then progress, then at most one delivery, each pinning the one before: from
   * any listing of exactly these records within the limit, `get` reports all of them in order,
   * with no fork and nothing ignored but what is not of this task. The task is delivered exactly
   * if the last record is a delivery, and the artifacts are that record's.
   */
  lemma LifecycleReported(c: seq<Record>, items: seq<Item>)
    requires Lifecycle(c) && (forall i, j :: 0 <= i < j < |c| ==> c[i].resource < c[j].resource)
    requires (forall x: Record :: multiset(items)[Sound(x)] == if x in c then 1 else 0) && |items| <= 200
    ensures Reported(items).Some?
    ensures var report := Reported(items).value;
            && |report.events| == |c|
            && (forall i :: 0 <= i < |c| ==> report.events[i].resource == c[i].resource && report.events[i].kind == c[i].kind)
            && !report.ambiguous && report.ignored == |items| - |c|
            && (c == [] ==> report.state == Invited && report.artifacts == [])
            && (c != [] ==>
                  var last := c[|c| - 1];
                  && report.artifacts == last.artifacts
                  && (report.state == Delivered <==> last.kind == Deliver) && (report.state == InProgress <==> last.kind == Progress)
                  && (report.state == Accepted <==> last.kind == Accept))
  {
    assert Increasing(c) && ListedOnce(items, c);
    LifecycleRead(c, items);
    hide Lifecycle, Increasing, ListedOnce, Build, Records;
  }

  lemma LifecycleRead(c: seq<Record>, items: seq<Item>)
    requires Lifecycle(c) && Increasing(c) && ListedOnce(items, c)
    ensures var b := Build(Records(items), Invited, None);
            && b.chain == c && !b.ambiguous && b.left == 0 && |Records(items)| == |c|
            && b.state == (if c == [] then Invited else After(c[|c| - 1].kind))
            && b.artifacts == (if c == [] then [] else c[|c| - 1].artifacts)
  {
    hide Build, Records, Linked, Reached, Lifecycle, ListedOnce, Increasing;
    SameRecords(items, c);
    OrderIrrelevant(Records(items), c, Invited, None);
    LifecycleLinked(c, 0);
    assert c[0..] == c;
    StartBehind(c);
    LinearReads(c, Invited, None);
    ReachedLast(c, Invited);
    ChainIsLinked(c, Invited, None);
  }

  /** A listing beyond the limit is refused, whatever it holds. */
  lemma LongListingRefused(items: seq<Item>)
    ensures Reported(items).None? <==> |items| > 200
  {
  }

  /** Two records that may both follow the last one are a fork. */
  lemma ForkReported(c: seq<Record>, x: Record, y: Record, items: seq<Item>)
    requires Lifecycle(c + [x]) && Lifecycle(c + [y]) && x.resource < y.resource
    requires forall i, j :: 0 <= i < j < |c| + 2 ==> (c + [x, y])[i].resource < (c + [x, y])[j].resource
    requires (forall z: Record :: multiset(items)[Sound(z)] == if z in c + [x, y] then 1 else 0) && |items| <= 200
    ensures Reported(items).Some? && Reported(items).value.ambiguous
  {
    var all := c + [x, y];
    assert Increasing(all);
    SameRecords(items, all);
    OrderIrrelevant(Records(items), all, Invited, None);
    LifecycleLinked(c + [x], 0);
    LifecycleLinked(c + [y], 0);
    assert (c + [x])[0..] == c + [x] && (c + [y])[0..] == c + [y];
    NextEligible(c, x, Invited, None);
    NextEligible(c, y, Invited, None);
    StartBehind(all);
    ForkReads(c, Invited, None, x, y);
    hide Build, Records, Linked, Lifecycle;
  }

  lemma StartBehind(c: seq<Record>)
    ensures Behind(None, c)
  {
  }

  lemma {:induction false} NextEligible(c: seq<Record>, x: Record, state: State, previous: Option<nat>)
    requires Linked(c + [x], state, previous)
    ensures Linked(c, state, previous) && Eligible(x, Reached(c, state), if c == [] then previous else LastOf(c))
    decreases |c|
  {
    if c != [] {
      assert (c + [x])[1..] == c[1..] + [x];
      NextEligible(c[1..], x, After(c[0].kind), Some(c[0].resource));
    }
  }
}
