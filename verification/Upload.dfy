/** The inner loop of an upload: put every range the server still misses, piece by piece. */
module Upload {
  import opened Wrappers
  import opened Octets

  datatype Gap = Gap(start: nat, end: nat)

  /** One `transfer.part_put`. */
  datatype Put = Put(offset: nat, data: seq<Octet>)

  predicate InGap(gap: Gap, i: nat) {
    gap.start <= i < gap.end
  }

  predicate InGaps(gaps: seq<Gap>, i: nat) {
    exists gap <- gaps :: InGap(gap, i)
  }

  /** What the server holds after a put. */
  function Stored(received: map<nat, Octet>, put: Put): (now: map<nat, Octet>)
    ensures forall i: nat :: i in now <==> i in received || put.offset <= i < put.offset + |put.data|
    ensures forall i: nat :: i in now ==>
              now[i] == if put.offset <= i < put.offset + |put.data| then put.data[i - put.offset] else received[i]
    decreases |put.data|
  {
    if put.data == [] then received
    else Stored(received[put.offset := put.data[0]], Put(put.offset + 1, put.data[1..]))
  }

  predicate FilledAt(before: map<nat, Octet>, now: map<nat, Octet>, file: seq<Octet>, lo: nat, hi: nat, i: nat) {
    if lo <= i < hi then i < |file| && i in now && now[i] == file[i]
    else (i in now <==> i in before) && (i in now ==> now[i] == before[i])
  }

  /** Exactly the positions in [lo, hi) changed, to the file's octets. */
  ghost predicate Filled(before: map<nat, Octet>, now: map<nat, Octet>, file: seq<Octet>, lo: nat, hi: nat) {
    forall i: nat :: FilledAt(before, now, file, lo, hi, i)
  }

  lemma FilledAtMore(before: map<nat, Octet>, now: map<nat, Octet>, file: seq<Octet>, lo: nat, mid: nat, hi: nat, i: nat)
    requires lo <= mid <= hi <= |file| && FilledAt(before, now, file, lo, mid, i)
    ensures FilledAt(before, Stored(now, Put(mid, file[mid..hi])), file, lo, hi, i)
  {
    hide Stored;
    assert i in Stored(now, Put(mid, file[mid..hi])) <==> i in now || mid <= i < hi;
  }

  lemma FilledMore(before: map<nat, Octet>, now: map<nat, Octet>, file: seq<Octet>, lo: nat, mid: nat, hi: nat)
    requires lo <= mid <= hi <= |file| && Filled(before, now, file, lo, mid)
    ensures Filled(before, Stored(now, Put(mid, file[mid..hi])), file, lo, hi)
  {
    hide Stored, FilledAt;
    forall i: nat ensures FilledAt(before, Stored(now, Put(mid, file[mid..hi])), file, lo, hi, i) {
      FilledAtMore(before, now, file, lo, mid, hi, i);
    }
  }

  class Transfer {
    var received: map<nat, Octet>
    var puts: seq<Put>

    constructor ()
      ensures received == map[] && puts == []
    {
      received, puts := map[], [];
    }

    /**
     * Puts one gap in consecutive pieces of at most `partBytes`. It fails only where the file
     * ends inside the gap, and has then put what there was.
     */
    method FillGap(file: seq<Octet>, gap: Gap, partBytes: nat) returns (ok: bool)
      requires partBytes > 0
      modifies this
      ensures ok <==> gap.start >= gap.end || gap.end <= |file|
      ensures Filled(old(received), received, file, gap.start, Max(gap.start, Min(gap.end, |file|)))
      ensures old(puts) <= puts && forall k :: |old(puts)| <= k < |puts| ==> 0 < |puts[k].data| <= partBytes
    {
      hide Filled, Stored;
      var start := gap.start;
      FilledNone(received, file, start);
      while start < gap.end
        invariant gap.start <= start && (start <= gap.end || start == gap.start)
        invariant start > gap.start ==> start <= |file|
        invariant Filled(old(received), received, file, gap.start, start)
        invariant old(puts) <= puts && forall k :: |old(puts)| <= k < |puts| ==> 0 < |puts[k].data| <= partBytes
      {
        var wanted := Min(partBytes, gap.end - start);
        var piece := if start >= |file| then [] else file[start..Min(start + wanted, |file|)];
        if piece == [] { return false; }
        FilledMore(old(received), received, file, gap.start, start, start + |piece|);
        received := Stored(received, Put(start, piece));
        puts := puts + [Put(start, piece)];
        start := start + |piece|;
      }
      ok := true;
    }

    /** All gaps of one status page; afterwards the server misses none of them. */
    method FillGaps(file: seq<Octet>, missing: seq<Gap>, partBytes: nat) returns (ok: bool)
      requires partBytes > 0
      modifies this
      ensures ok <==> forall gap <- missing :: gap.start >= gap.end || gap.end <= |file|
      ensures ok ==> forall i: nat :: InGaps(missing, i) ==> i in received && i < |file| && received[i] == file[i]
      ensures forall i: nat :: i in received && !InGaps(missing, i) ==> i in old(received) && received[i] == old(received)[i]
      ensures forall i: nat :: i in old(received) ==> i in received
    {
      for k := 0 to |missing|
        invariant forall j :: 0 <= j < k ==> missing[j].start >= missing[j].end || missing[j].end <= |file|
        invariant forall i: nat, j :: 0 <= j < k && InGap(missing[j], i) ==> i in received && i < |file| && received[i] == file[i]
        invariant forall i: nat :: i in received && !InGaps(missing, i) ==> i in old(received) && received[i] == old(received)[i]
        invariant forall i: nat :: i in old(received) ==> i in received
      {
        assert missing[k] in missing;
        ghost var before := received;
        var done := FillGap(file, missing[k], partBytes);
        GapFilled(before, received, file, missing[k]);
        if !done { return false; }
      }
      forall i: nat | InGaps(missing, i) ensures i in received && i < |file| && received[i] == file[i] {
        var gap :| gap in missing && InGap(gap, i);
        var j :| 0 <= j < |missing| && missing[j] == gap;
        assert InGap(missing[j], i);
      }
      ok := true;
    }
  }

  lemma FilledNone(now: map<nat, Octet>, file: seq<Octet>, lo: nat)
    ensures Filled(now, now, file, lo, lo)
  {
  }

  /** What filling one gap means position by position. */
  lemma GapFilled(before: map<nat, Octet>, now: map<nat, Octet>, file: seq<Octet>, gap: Gap)
    requires Filled(before, now, file, gap.start, Max(gap.start, Min(gap.end, |file|)))
    ensures forall i: nat :: i in before ==> i in now
    ensures forall i: nat :: i in now && !InGap(gap, i) ==> i in before && now[i] == before[i]
    ensures forall i: nat :: InGap(gap, i) && i < |file| ==> i in now && now[i] == file[i]
  {
    forall i: nat
      ensures i in before ==> i in now
      ensures i in now && !InGap(gap, i) ==> i in before && now[i] == before[i]
      ensures InGap(gap, i) && i < |file| ==> i in now && now[i] == file[i]
    {
      assert FilledAt(before, now, file, gap.start, Max(gap.start, Min(gap.end, |file|)), i);
    }
  }
}
