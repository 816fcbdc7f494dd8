/**
 * The resumable download: a part file, a journal that describes its durable prefix, and a
 * target that is linked into place. The hash is injective, so a digest is modelled as the bytes
 * it was taken of. A run may crash before any durable effect; whatever the part file holds past
 * its durable prefix is then arbitrary.
 */
module Download {
  import opened Wrappers
  import opened Octets

  datatype Saved = Saved(size: nat, digest: Digest, partBytes: nat, offset: nat, prefixDigest: Digest)

  /** What `transfer.open` announces. */
  datatype Offer = Offer(size: nat, digest: Digest, partBytes: nat)

  /** How the server answers one `transfer.part_get`: truly, with other bytes, or not at all. */
  datatype Answer = True | Other(data: seq<Octet>, declared: Digest) | Refusal

  datatype Outcome = Done | Failed | Crashed

  function Slice(source: seq<Octet>, offset: nat, amount: nat): seq<Octet> {
    if offset <= |source| then source[offset..Min(offset + amount, |source|)] else []
  }

  /** The journal describes a prefix that the part file holds. */
  predicate Describes(saved: Saved, part: seq<Octet>) {
    saved.offset <= |part| && saved.prefixDigest == Sha256(part[..saved.offset])
  }

  /** The durable prefix is a prefix of `content`. */
  predicate Agrees(saved: Saved, part: seq<Octet>, content: seq<Octet>) {
    saved.offset <= |part| && part[..saved.offset] <= content
  }

  function PartOf(part: Option<seq<Octet>>): seq<Octet> {
    if part.Some? then part.value else []
  }

  /** What is asked for next: no more than requested, than a part holds, and than is missing. */
  function Wanted(request: nat, saved: Saved): (amount: nat)
    requires saved.offset <= saved.size
    ensures amount <= request && amount <= saved.partBytes && saved.offset + amount <= saved.size
    ensures amount == request || amount == saved.partBytes || saved.offset + amount == saved.size
  {
    Min(Min(request, saved.partBytes), saved.size - saved.offset)
  }

  /** An answer of another length than asked for, or with another digest than it declares. */
  predicate Lies(answer: Answer, amount: nat) {
    answer.Other? && (|answer.data| != amount || Sha256(answer.data) != answer.declared)
  }

  function Fresh(offer: Offer): Saved {
    Saved(offer.size, offer.digest, offer.partBytes, 0, Sha256([]))
  }

  /** The journal a run works from: the saved one, or a new one for what the server announced. */
  function Basis(journal: Option<Saved>, offer: Option<Offer>): Option<Saved> {
    if journal.Some? then journal else if offer.Some? then Some(Fresh(offer.value)) else None
  }

  /** Size and digest are fixed when the transfer is opened. */
  predicate SameTransfer(a: Saved, b: Saved) {
    a.size == b.size && a.digest == b.digest && a.partBytes == b.partBytes
  }

  predicate Announces(saved: Saved, source: seq<Octet>) {
    saved.size == |source| && saved.digest == Sha256(source) && saved.partBytes > 0 && saved.offset <= saved.size
  }

  predicate AllTrue(answers: seq<Answer>) {
    forall a <- answers :: a == True
  }

  predicate NoneOther(answers: seq<Answer>) {
    forall a <- answers :: !a.Other?
  }

  class Receiver {
    const source: seq<Octet>
    var target: Option<seq<Octet>>
    var part: Option<seq<Octet>>
    var journal: Option<Saved>

    /** The journal describes the part file's prefix, or the part file has become the target. */
    ghost predicate Valid()
      reads this
    {
      journal.Some? ==> Describes(journal.value, PartOf(part)) || (part.None? && target.Some?)
    }

    constructor (source: seq<Octet>)
      ensures Valid() && this.source == source && target == None && part == None && journal == None
    {
      this.source := source;
      target, part, journal := None, None, None;
    }

    /** A piece is taken only if it is as long as asked for and has the digest that came with it. */
    method Taken(answer: Answer, offset: nat, amount: nat) returns (piece: Option<seq<Octet>>)
      ensures piece.Some? ==> |piece.value| == amount
      ensures answer.Refusal? ==> piece == None
      ensures answer.Other? ==> (piece == Some(answer.data) <==> |answer.data| == amount && Sha256(answer.data) == answer.declared)
      ensures answer.Other? ==> piece == None || piece == Some(answer.data)
      ensures answer.True? && offset + amount <= |source| ==> piece == Some(source[offset..offset + amount])
      ensures answer.True? ==> piece == None || piece == Some(Slice(source, offset, amount))
    {
      if answer.Refusal? { return None; }
      var data := if answer == True then Slice(source, offset, amount) else answer.data;
      var declared := if answer == True then Sha256(data) else answer.declared;
      return if |data| != amount || Sha256(data) != declared then None else Some(data);
    }

    /**
     * The loop over pieces. On entry the part file was cut to the durable prefix. Each piece is
     * synced before the journal that counts it is written.
     */
    method Fetch(request: nat, start: Saved, answers: seq<Answer>, junk: seq<Octet>, fuse: Option<nat>)
      returns (r: Outcome, saved: Saved, left: Option<nat>)
      requires request > 0 && journal == Some(start) && part.Some? && |part.value| == start.offset && Describes(start, part.value)
      modifies this`part, this`journal
      ensures part.Some? && journal == Some(saved) && Describes(saved, part.value)
      ensures SameTransfer(saved, start) && saved.offset >= start.offset && old(part).value <= part.value
      ensures r == Done ==> |part.value| == saved.offset && saved.size <= saved.offset
      ensures r == Crashed ==> fuse.Some?
      ensures fuse.None? ==> left.None?
      ensures NoneOther(answers) && old(part).value <= source ==> part.value[..saved.offset] <= source
      ensures fuse.None? && AllTrue(answers) && Announces(start, source) && |answers| >= start.size - start.offset ==>
                r == Done && saved.offset == saved.size
      ensures start.offset < start.size && answers != [] && Lies(answers[0], Wanted(request, start)) ==>
                r == Failed && saved == start && part == old(part)
    {
      hide NoneOther, AllTrue, Wanted;
      saved, left := start, fuse;
      var offset, next := start.offset, 0;
      while offset < saved.size
        invariant part.Some? && |part.value| == offset == saved.offset && next <= |answers|
        invariant journal == Some(saved) && Describes(saved, part.value) && SameTransfer(saved, start)
        invariant offset >= start.offset && old(part).value <= part.value
        invariant fuse.None? ==> left.None?
        invariant NoneOther(answers) && old(part).value <= source ==> part.value <= source
        invariant AllTrue(answers) && Announces(start, source) ==>
                    offset <= saved.size && next <= offset - start.offset
        invariant next == 0 ==> saved == start && part == old(part)
        invariant next > 0 ==> start.offset < start.size && !Lies(answers[0], Wanted(request, start))
        decreases |answers| - next
      {
        var amount := Wanted(request, saved);
        if next == |answers| { return Failed, saved, left; }
        OneAnswer(answers, next);
        var taken := Taken(answers[next], offset, amount);
        if taken.None? { return Failed, saved, left; }
        next := next + 1;
        var piece := taken.value;
        if left == Some(0) {
          part := Some(part.value + junk);
          return Crashed, saved, left;
        }
        left := Spend(left);
        PrefixGrows(source, part.value, piece, amount);
        part := Some(part.value + piece);
        if left == Some(0) { return Crashed, saved, left; }
        left := Spend(left);
        offset := offset + |piece|;
        saved := saved.(offset := offset, prefixDigest := Sha256(part.value));
        journal := Some(saved);
      }
      r := Done;
    }

    /** Hashes the durable prefix in pieces; nothing is checked while nothing is durable. */
    method CheckPrefix(saved: Saved) returns (ok: bool)
      ensures ok <==> saved.offset == 0 || Describes(saved, PartOf(part))
    {
      if saved.offset == 0 { return true; }
      if part.None? || |part.value| < saved.offset { return false; }
      var hashed: seq<Octet> := [];
      var remaining := saved.offset;
      while remaining > 0
        invariant |hashed| + remaining == saved.offset <= |part.value| && hashed == part.value[..|hashed|]
      {
        var count := Min(65536, remaining);
        hashed := hashed + part.value[|hashed|..|hashed| + count];
        remaining := remaining - count;
      }
      return Sha256(hashed) == saved.prefixDigest;
    }

    /** Link, then remove the part file and the journal. */
    method Publish(fuse: Option<nat>) returns (r: Outcome)
      requires target == None && part.Some?
      modifies this
      ensures r == Done ==> target == old(part) && part == None && journal == None
      ensures r != Failed && (fuse.None? ==> r == Done)
      ensures r == Crashed ==> journal == old(journal) && (part == old(part) || part == None)
      ensures r == Crashed ==> (target == None && part == old(part)) || target == old(part)
    {
      var left := fuse;
      if left == Some(0) { return Crashed; }
      left := Spend(left);
      target := part;
      if left == Some(0) { return Crashed; }
      left := Spend(left);
      part := None;
      if left == Some(0) { return Crashed; }
      journal := None;
      return Done;
    }

    /** Everything after the journal is there and the target is found to be free. */
    method Resume(request: nat, current: Saved, answers: seq<Answer>,
                  intruder: Option<seq<Octet>>, junk: seq<Octet>, fuse: Option<nat>)
      returns (r: Outcome)
      requires request > 0 && journal == Some(current) && Begins(current) && target.None?
      modifies this
      ensures journal.Some? ==> Begins(journal.value) && SameTransfer(journal.value, current) && journal.value.offset >= current.offset
      ensures r == Done ==>
                && target == Some(current.digest.content) && part == None && journal == None
                && Agrees(current, PartOf(old(part)), current.digest.content)
      ensures r != Done ==> target == None || target == intruder || target == Some(current.digest.content)
      ensures current.offset > 0 && !Describes(current, PartOf(old(part))) ==>
                r == Failed && target == None && part == old(part) && journal == old(journal)
      ensures current.offset == 0 || Describes(current, PartOf(old(part))) ==> Valid()
      ensures Describes(current, PartOf(old(part))) && !Agrees(current, PartOf(old(part)), current.digest.content) ==>
                && r != Done && journal.Some? && (target.Some? ==> target == intruder)
                && !Agrees(journal.value, PartOf(part), current.digest.content)
      ensures NoneOther(answers) && (current.offset == 0 || Agrees(current, PartOf(old(part)), source)) ==> Faithful()
      ensures fuse.None? && intruder.None? && AllTrue(answers) && |answers| >= |source| && Announces(current, source) ==>
                (r == Done <==> Resumable(old(journal), PartOf(old(part)), source))
    {
      hide NoneOther, AllTrue;
      var ok := CheckPrefix(current);
      if !ok { return Failed; }
      CutPrefix(current, PartOf(part), source);
      CutPrefix(current, PartOf(part), current.digest.content);
      TrueIsNotOther(answers);
      part := Some(PartOf(part)[..current.offset]);
      ghost var cut := part.value;
      var saved, left;
      r, saved, left := Fetch(request, current, answers, junk, fuse);
      WrongStays(current, cut, saved, part.value, saved.digest.content);
      if r != Done { return; }
      if Sha256(part.value) != saved.digest { return Failed; }
      if intruder.Some? {
        target := intruder;
        return Failed;
      }
      r := Publish(left);
    }

    /** One run, in the terms of the specification. */
    method Proceed(request: nat, offer: Option<Offer>, answers: seq<Answer>,
               intruder: Option<seq<Octet>>, junk: seq<Octet>, fuse: Option<nat>)
      returns (r: Outcome)
      requires request > 0 && (journal.Some? ==> Begins(journal.value))
      modifies this
      ensures old(Valid()) ==> Valid()
      ensures journal.Some? ==> Begins(journal.value)
      ensures old(target).Some? ==>
                target == old(target) && part == old(part) && r != Done && (old(journal).Some? ==> journal == old(journal))
      ensures target == old(target) || target == intruder || Landed(target, old(journal), offer)
      ensures r == Done ==>
                && Landed(target, old(journal), offer) && part == None && journal == None
                && (old(journal).Some? ==> Agrees(old(journal).value, PartOf(old(part)), old(journal).value.digest.content))
      ensures old(journal).Some? && old(journal).value.offset > 0 && !Describes(old(journal).value, PartOf(old(part))) ==>
                r == Failed && target == old(target) && part == old(part) && journal == old(journal)
      ensures journal.Some? ==> Continues(journal.value, old(journal), offer)
      ensures NoneOther(answers) && old(Faithful()) ==> Faithful()
      ensures old(journal).Some? && old(Valid()) && old(target).None? &&
              !Agrees(old(journal).value, PartOf(old(part)), old(journal).value.digest.content) ==>
                && r != Done && journal.Some? && (target.Some? ==> target == intruder)
                && !Agrees(journal.value, PartOf(part), journal.value.digest.content)
      ensures Favourable(old(journal), offer, source, answers, intruder, fuse) ==>
                (r == Done <==> old(target).None? && Resumable(old(journal), PartOf(old(part)), source))
    {
      hide NoneOther, AllTrue, Agrees, Describes;
      NothingYet(PartOf(part), source);
      var left := fuse;
      var current;
      if journal.Some? {
        current := journal.value;
      } else {
        if offer.None? { return Failed; }
        if left == Some(0) { return Crashed; }
        left := Spend(left);
        current := Fresh(offer.value);
        journal := Some(current);
      }
      if target.Some? { return Failed; }
      r := Resume(request, current, answers, intruder, junk, left);
    }

    /**
     * One run, in plain terms. `intruder` is what another program may have put at the target just
     * before the link; `junk` is what a crash leaves in the part file past the durable prefix.
     */
    method Run(request: nat, offer: Option<Offer>, answers: seq<Answer>,
               intruder: Option<seq<Octet>>, junk: seq<Octet>, fuse: Option<nat>)
      returns (r: Outcome)
      requires request > 0 && (journal.Some? ==> Begins(journal.value))
      modifies this
      ensures old(target).Some? ==> r != Done && target == old(target) && part == old(part)
      ensures r == Done ==>
                && part.None? && journal.None? && target.Some? && (old(journal).Some? || offer.Some?)
                && Sha256(target.value) == (if old(journal).Some? then old(journal).value.digest else offer.value.digest)
      ensures old(journal).Some? && old(journal).value.offset > 0
              && (old(part).None? || |old(part).value| < old(journal).value.offset
                  || Sha256(old(part).value[..old(journal).value.offset]) != old(journal).value.prefixDigest) ==>
                r == Failed && target == old(target) && part == old(part) && journal == old(journal)
      ensures old(Valid()) && journal.Some? && journal.value.offset > 0 && !(part.None? && target.Some?) ==>
                && part.Some? && |part.value| >= journal.value.offset
                && journal.value.prefixDigest == Sha256(part.value[..journal.value.offset])
      ensures journal.Some? && old(journal).Some? ==>
                && journal.value.size == old(journal).value.size && journal.value.digest == old(journal).value.digest
                && journal.value.partBytes == old(journal).value.partBytes && journal.value.offset >= old(journal).value.offset
      ensures journal.Some? && old(journal).None? ==>
                && offer.Some? && journal.value.size == offer.value.size && journal.value.digest == offer.value.digest
                && journal.value.partBytes == offer.value.partBytes
      ensures && fuse.None? && intruder.None? && old(target).None? && |answers| >= |source|
              && (forall i :: 0 <= i < |answers| ==> answers[i] == True)
              && (if old(journal).Some? then OfSource(old(journal).value, old(part), source)
                  else offer.Some? && offer.value.size == |source| && offer.value.digest == Sha256(source) && offer.value.partBytes > 0) ==>
                r == Done && target == Some(source)
    {
      ghost var before, held := journal, part;
      assert before.Some? && before.value.offset > 0 ==>
          (Describes(before.value, PartOf(held)) <==>
             held.Some? && before.value.offset <= |held.value| && Sha256(held.value[..before.value.offset]) == before.value.prefixDigest);
      assert before.Some? && OfSource(before.value, held, source) ==> Agrees(before.value, PartOf(held), source);
      r := Proceed(request, offer, answers, intruder, junk, fuse);
    }

    /** The durable prefix is the source's own. */
    ghost predicate Faithful()
      reads this
    {
      journal.Some? ==> Agrees(journal.value, PartOf(part), source) || (part.None? && target.Some?)
    }
  }

  /** A journal that has counted nothing yet carries the digest of nothing. */
  predicate Begins(saved: Saved) {
    saved.offset == 0 ==> saved.prefixDigest == Sha256([])
  }

  predicate Landed(target: Option<seq<Octet>>, journal: Option<Saved>, offer: Option<Offer>) {
    Basis(journal, offer).Some? && target == Some(Basis(journal, offer).value.digest.content)
  }

  predicate Continues(now: Saved, before: Option<Saved>, offer: Option<Offer>) {
    Basis(before, offer).Some? && SameTransfer(now, Basis(before, offer).value) && now.offset >= Basis(before, offer).value.offset
  }

  /** Nothing crashes, nobody interferes, the server is truthful and answers often enough. */
  predicate Favourable(journal: Option<Saved>, offer: Option<Offer>, source: seq<Octet>, answers: seq<Answer>,
                       intruder: Option<seq<Octet>>, fuse: Option<nat>)
  {
    && fuse.None? && intruder.None? && AllTrue(answers) && |answers| >= |source|
    && Basis(journal, offer).Some? && Announces(Basis(journal, offer).value, source)
  }

  /** A journal of this very content, whose counted prefix stands in the part file. */
  predicate OfSource(saved: Saved, part: Option<seq<Octet>>, source: seq<Octet>) {
    && saved.size == |source| && saved.digest == Sha256(source) && saved.partBytes > 0 && saved.offset <= |source|
    && (saved.offset > 0 ==>
          && part.Some? && saved.offset <= |part.value| && part.value[..saved.offset] == source[..saved.offset]
          && saved.prefixDigest == Sha256(source[..saved.offset]))
  }

  /** Nothing durable yet, or a described prefix of the source. */
  predicate Resumable(journal: Option<Saved>, part: seq<Octet>, source: seq<Octet>) {
    journal.Some? && journal.value.offset > 0 ==> Describes(journal.value, part) && Agrees(journal.value, part, source)
  }

  lemma TrueIsNotOther(answers: seq<Answer>)
    ensures AllTrue(answers) ==> NoneOther(answers)
  {
  }

  /** A journal that has counted nothing describes and agrees with anything. */
  lemma NothingYet(part: seq<Octet>, source: seq<Octet>)
    ensures forall saved: Saved :: saved.offset == 0 ==>
              Agrees(saved, part, source) && (Begins(saved) ==> Describes(saved, part))
  {
  }

  /** Appending to a prefix that is off the content leaves it off. */
  lemma WrongStays(before: Saved, cut: seq<Octet>, after: Saved, part: seq<Octet>, content: seq<Octet>)
    requires |cut| == before.offset <= after.offset <= |part| && cut <= part
    ensures Agrees(after, part, content) ==> cut <= content
  {
  }

  lemma CutPrefix(saved: Saved, part: seq<Octet>, source: seq<Octet>)
    requires Begins(saved) && (saved.offset == 0 || Describes(saved, part))
    ensures saved.offset <= |part| && Describes(saved, part[..saved.offset])
    ensures Agrees(saved, part, source) <==> part[..saved.offset] <= source
  {
    assert part[..saved.offset][..saved.offset] == part[..saved.offset];
  }

  lemma OneAnswer(answers: seq<Answer>, k: nat)
    requires k < |answers|
    ensures NoneOther(answers) ==> !answers[k].Other?
    ensures AllTrue(answers) ==> answers[k] == True
  {
    assert answers[k] in answers;
  }

  lemma PrefixGrows(source: seq<Octet>, part: seq<Octet>, piece: seq<Octet>, amount: nat)
    requires |piece| == amount
    ensures part <= source && piece == Slice(source, |part|, amount) ==> part + piece <= source
    ensures (part + piece)[..|part|] == part
    ensures |part| + amount <= |source| ==> |Slice(source, |part|, amount)| == amount
  {
  }

  // ---------- many runs ----------

  datatype Attempt = Attempt(
    request: nat, offer: Option<Offer>, answers: seq<Answer>, intruder: Option<seq<Octet>>,
    junk: seq<Octet>, fuse: Option<nat>)

  predicate Offers(attempts: seq<Attempt>, content: seq<Octet>) {
    forall a <- attempts :: a.request > 0 && (a.offer.Some? ==> a.offer.value.digest == Sha256(content))
  }

  predicate Undisturbed(attempts: seq<Attempt>) {
    forall a <- attempts :: a.intruder.None? && NoneOther(a.answers)
  }

  /**
   * Any number of crashed, failed and resumed runs until one succeeds: the journal never stops
   * describing the durable prefix, success means that the target holds the announced content,
   * and a target that was there is never replaced.
   */
  method RunAll(receiver: Receiver, attempts: seq<Attempt>) returns (done: bool)
    requires receiver.Valid() && Offers(attempts, receiver.source)
    requires receiver.journal.Some? ==> Begins(receiver.journal.value) && receiver.journal.value.digest == Sha256(receiver.source)
    modifies receiver
    ensures receiver.Valid()
    ensures old(receiver.target).Some? ==> receiver.target == old(receiver.target)
    ensures done ==> receiver.target == Some(receiver.source) && receiver.part == None && receiver.journal == None
    ensures Undisturbed(attempts) && old(receiver.Faithful()) ==> receiver.Faithful()
    ensures Undisturbed(attempts) && old(receiver.target).None? && receiver.target.Some? ==>
              receiver.target == Some(receiver.source)
  {
    done := false;
    for i := 0 to |attempts|
      invariant receiver.Valid() && !done
      invariant receiver.journal.Some? ==>
                  Begins(receiver.journal.value) && receiver.journal.value.digest == Sha256(receiver.source)
      invariant old(receiver.target).Some? ==> receiver.target == old(receiver.target)
      invariant Undisturbed(attempts) && old(receiver.Faithful()) ==> receiver.Faithful()
      invariant Undisturbed(attempts) && old(receiver.target).None? && receiver.target.Some? ==>
                  receiver.target == Some(receiver.source)
    {
      var a := attempts[i];
      assert a in attempts;
      var r := receiver.Proceed(a.request, a.offer, a.answers, a.intruder, a.junk, a.fuse);
      if r == Done { return true; }
    }
  }

  /**
   * A wrong piece that was journaled is never forgiven: with the prefix off the announced
   * content no later run of this transfer succeeds, whatever is answered.
   */
  method WrongPieceSticks(receiver: Receiver, attempts: seq<Attempt>) returns (done: bool)
    requires receiver.Valid() && receiver.target.None? && forall a <- attempts :: a.request > 0
    requires receiver.journal.Some? && Begins(receiver.journal.value)
    requires !Agrees(receiver.journal.value, PartOf(receiver.part), receiver.journal.value.digest.content)
    modifies receiver
    ensures !done && receiver.journal.Some?
    ensures receiver.target.Some? ==> exists a <- attempts :: receiver.target == a.intruder
  {
    done := false;
    for i := 0 to |attempts|
      invariant receiver.Valid() && receiver.journal.Some? && Begins(receiver.journal.value)
      invariant receiver.target.None? ==>
                  !Agrees(receiver.journal.value, PartOf(receiver.part), receiver.journal.value.digest.content)
      invariant receiver.target.Some? ==> exists a <- attempts :: receiver.target == a.intruder
    {
      var a := attempts[i];
      assert a in attempts;
      var r := receiver.Proceed(a.request, a.offer, a.answers, a.intruder, a.junk, a.fuse);
      if r == Done { return true; }
    }
  }
}
