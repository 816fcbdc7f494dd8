/**
 * OpenPGP packet framing (section 4.2 of RFC 4880) and the encrypted-message
 * shape the backup client accepts.
 */
module OpenPgp {
  import opened Wrappers
  import opened Octets

  /** A parsed packet and the octets that follow it. */
  datatype Packet = Packet(tag: nat, body: seq<Octet>, rest: seq<Octet>)

  /** A decoded new-format length header. */
  datatype Length = Length(size: nat, partial: bool, rest: seq<Octet>)

  // ---------------------------------------------------------------- parsing

  /** One new-format length header. Bit operations are written as arithmetic on the octet. */
  function NewLength(data: seq<Octet>): (r: Option<Length>)
    ensures r.Some? ==> |r.value.rest| < |data|
  {
    if data == [] then None
    else
      var first, rest := data[0], data[1..];
      if first < 192 then Some(Length(first, false, rest))
      else if first < 224 then
        if rest == [] then None
        else Some(Length((first as int - 192) * 256 + rest[0] as int + 192, false, rest[1..]))
      else if first < 255 then Some(Length(Pow2(first % 32), true, rest))
      else if |rest| < 4 then None
      else Some(Length(FromBytes(rest[..4]), false, rest[4..]))
  }

  /** A new-format body: partial chunks, then one definite chunk. */
  function NewBody(data: seq<Octet>): (r: Option<(seq<Octet>, seq<Octet>)>)
    ensures r.Some? ==> |r.value.1| < |data|
    decreases |data|
  {
    match NewLength(data)
    case None => None
    case Some(Length(size, partial, rest)) =>
      if size > |rest| then None
      else if !partial then Some((rest[..size], rest[size..]))
      else
        match NewBody(rest[size..])
        case None => None
        case Some((more, after)) => Some((rest[..size] + more, after))
  }

  function OldWidth(kind: nat): nat
    requires kind < 3
  {
    if kind == 0 then 1 else if kind == 1 then 2 else 4
  }

  function NewPacket(tag: nat, data: seq<Octet>): (r: Option<Packet>)
    ensures r.Some? ==> |r.value.rest| < |data|
  {
    match NewBody(data)
    case None => None
    case Some((body, after)) => Some(Packet(tag, body, after))
  }

  function OldPacket(tag: nat, kind: nat, data: seq<Octet>): (r: Option<Packet>)
    requires kind < 4
    ensures r.Some? ==> |r.value.rest| < |data|
  {
    if kind == 3 || OldWidth(kind) > |data| then None
    else
      var width := OldWidth(kind);
      var size, tail := FromBytes(data[..width]), data[width..];
      if size > |tail| then None else Some(Packet(tag, tail[..size], tail[size..]))
  }

  function ParsePacket(data: seq<Octet>): (r: Option<Packet>)
    ensures r.Some? ==> |r.value.rest| < |data|
  {
    if data == [] || data[0] < 128 then None
    else if data[0] % 128 >= 64 then NewPacket(data[0] % 64, data[1..])
    else OldPacket(data[0] / 4 % 16, data[0] % 4, data[1..])
  }

  lemma Slices(data: seq<Octet>, i: nat, n: nat)
    requires i + n <= |data|
    ensures data[i..][..n] == data[i..i + n] && data[i..][n..] == data[i + n..]
  {
  }

  /** One length header read at an offset. */
  method LengthAt(data: seq<Octet>, start: nat) returns (r: Option<(nat, bool, nat)>)
    requires start <= |data|
    ensures r.None? <==> NewLength(data[start..]).None?
    ensures r.Some? ==> start < r.value.2 <= |data|
    ensures r.Some? ==> NewLength(data[start..]) == Some(Length(r.value.0, r.value.1, data[r.value.2..]))
  {
    if start >= |data| { return None; }
    var length, offset := data[start], start + 1;
    Slices(data, start, 1);
    if length < 192 {
      return Some((length, false, offset));
    } else if length < 224 {
      if offset >= |data| { return None; }
      Slices(data, offset, 1);
      return Some(((length as int - 192) * 256 + data[offset] as int + 192, false, offset + 1));
    } else if length < 255 {
      return Some((Pow2(length % 32), true, offset));
    }
    if offset + 4 > |data| { return None; }
    Slices(data, offset, 4);
    return Some((FromBytes(data[offset..offset + 4]), false, offset + 4));
  }

  /** What one chunk contributes, given its decoded length header. */
  lemma ChunkRound(data: seq<Octet>, start: nat, size: nat, partial: bool, next: nat)
    requires start <= next <= |data|
    requires NewLength(data[start..]) == Some(Length(size, partial, data[next..]))
    ensures next + size > |data| ==> NewBody(data[start..]).None?
    ensures next + size <= |data| && !partial ==>
              NewBody(data[start..]) == Some((data[next..next + size], data[next + size..]))
    ensures next + size <= |data| && partial ==>
              NewBody(data[start..]) == Prepend(data[next..next + size], NewBody(data[next + size..]))
  {
    hide NewLength;
    if next + size <= |data| {
      Slices(data, next, size);
    }
  }

  /** The body loop: append one chunk after another until a definite one. */
  method NewBodyAt(data: seq<Octet>, start: nat) returns (r: Option<(seq<Octet>, nat)>)
    requires start <= |data|
    ensures r.None? <==> NewBody(data[start..]).None?
    ensures r.Some? ==> start < r.value.1 <= |data|
    ensures r.Some? ==> NewBody(data[start..]) == Some((r.value.0, data[r.value.1..]))
  {
    hide NewBody, NewLength, Prepend;
    var pieces: seq<Octet>, offset := [], start;
    var partial := true;
    ghost var whole := NewBody(data[start..]);
    PrependNothing(whole);
    while partial
      invariant start <= offset <= |data|
      invariant partial || start < offset
      invariant partial ==> whole == Prepend(pieces, NewBody(data[offset..]))
      invariant !partial ==> whole == Some((pieces, data[offset..]))
      decreases partial, |data| - offset
    {
      var header := LengthAt(data, offset);
      if header.None? {
        NoLength(data[offset..]);
        PrependNone(pieces);
        return None;
      }
      var (size, more, next) := header.value;
      ChunkRound(data, offset, size, more, next);
      if next + size > |data| {
        PrependNone(pieces);
        return None;
      }
      var piece := data[next..next + size];
      PrependTwice(pieces, piece, NewBody(data[next + size..]));
      PrependLast(pieces, piece, data[next + size..]);
      pieces := pieces + piece;
      offset := next + size;
      partial := more;
    }
    return Some((pieces, offset));
  }

  lemma NoLength(data: seq<Octet>)
    requires NewLength(data).None?
    ensures NewBody(data).None?
  {
  }

  ghost function Prepend(pieces: seq<Octet>, body: Option<(seq<Octet>, seq<Octet>)>): Option<(seq<Octet>, seq<Octet>)> {
    if body.None? then None else Some((pieces + body.value.0, body.value.1))
  }

  lemma PrependNone(pieces: seq<Octet>)
    ensures Prepend(pieces, None) == None
  {
  }

  lemma PrependLast(pieces: seq<Octet>, last: seq<Octet>, rest: seq<Octet>)
    ensures Prepend(pieces, Some((last, rest))) == Some((pieces + last, rest))
  {
  }

  lemma PrependNothing(body: Option<(seq<Octet>, seq<Octet>)>)
    ensures Prepend([], body) == body
  {
    if body.Some? {
      assert [] + body.value.0 == body.value.0;
    }
  }

  lemma PrependTwice(a: seq<Octet>, b: seq<Octet>, body: Option<(seq<Octet>, seq<Octet>)>)
    ensures Prepend(a, Prepend(b, body)) == Prepend(a + b, body)
  {
    if body.Some? {
      assert a + (b + body.value.0) == a + b + body.value.0;
    }
  }

  /** The parser as the source writes it: an offset moves through the data and strictly advances. */
  method PgpPacket(data: seq<Octet>, start: nat) returns (r: Option<(nat, seq<Octet>, nat)>)
    ensures start > |data| ==> r == None
    ensures start <= |data| ==> (r.None? <==> ParsePacket(data[start..]).None?)
    ensures r.Some? ==> start < r.value.2 <= |data|
    ensures r.Some? ==> ParsePacket(data[start..]) == Some(Packet(r.value.0, r.value.1, data[r.value.2..]))
  {
    if start >= |data| || data[start] < 128 { return None; }
    var header, offset := data[start], start + 1;
    Slices(data, start, 1);
    if header % 128 >= 64 {
      var body := NewBodyAt(data, offset);
      if body.None? { return None; }
      return Some((header % 64, body.value.0, body.value.1));
    }
    var tag, kind := header / 4 % 16, header % 4;
    if kind == 3 { return None; }
    var width := OldWidth(kind);
    if offset + width > |data| { return None; }
    Slices(data, offset, width);
    var size := FromBytes(data[offset..offset + width]);
    offset := offset + width;
    if offset + size > |data| { return None; }
    Slices(data, offset, size);
    return Some((tag, data[offset..offset + size], offset + size));
  }

  // --------------------------------------------------------------- printing

  datatype LengthForm = OneOctet | TwoOctet | FiveOctet

  /** How a packet is framed: an old length kind, or partial-chunk exponents and a final form. */
  datatype Form = Old(kind: nat) | New(chunks: seq<nat>, last: LengthForm)

  predicate FitsLength(size: nat, form: LengthForm) {
    match form
    case OneOctet => size < 192
    case TwoOctet => 192 <= size < 8384
    case FiveOctet => size < Pow256(4)
  }

  function PrintLength(size: nat, form: LengthForm): seq<Octet>
    requires FitsLength(size, form)
  {
    match form
    case OneOctet => [size]
    case TwoOctet => [192 + (size - 192) / 256, (size - 192) % 256]
    case FiveOctet => [255] + ToBytes(size, 4)
  }

  predicate FitsChunks(chunks: seq<nat>, last: LengthForm, size: nat) {
    if chunks == [] then FitsLength(size, last)
    else
      && chunks[0] <= 30
      && Pow2(chunks[0]) <= size
      && FitsChunks(chunks[1..], last, size - Pow2(chunks[0]))
  }

  function PrintBody(body: seq<Octet>, chunks: seq<nat>, last: LengthForm): seq<Octet>
    requires FitsChunks(chunks, last, |body|)
  {
    if chunks == [] then PrintLength(|body|, last) + body
    else
      var size := Pow2(chunks[0]);
      [224 + chunks[0]] + body[..size] + PrintBody(body[size..], chunks[1..], last)
  }

  predicate Legal(tag: nat, body: seq<Octet>, form: Form) {
    match form
    case Old(kind) => tag < 16 && kind < 3 && |body| < Pow256(OldWidth(kind))
    case New(chunks, last) => tag < 64 && FitsChunks(chunks, last, |body|)
  }

  function PrintPacket(tag: nat, body: seq<Octet>, form: Form): seq<Octet>
    requires Legal(tag, body, form)
  {
    match form
    case Old(kind) => [128 + 4 * tag + kind] + ToBytes(|body|, OldWidth(kind)) + body
    case New(chunks, last) => [192 + tag] + PrintBody(body, chunks, last)
  }

  // ------------------------------------------------- parsing undoes printing

  lemma ParsePrintLength(size: nat, form: LengthForm, rest: seq<Octet>)
    requires FitsLength(size, form)
    ensures NewLength(PrintLength(size, form) + rest) == Some(Length(size, false, rest))
  {
    var data := PrintLength(size, form) + rest;
    match form
    case OneOctet => assert data[1..] == rest;
    case TwoOctet => assert data[1..][1..] == rest;
    case FiveOctet =>
      FromToBytes(size, 4);
      assert data[1..][..4] == ToBytes(size, 4);
      assert data[1..][4..] == rest;
  }

  lemma PartialLength(chunk: nat, rest: seq<Octet>)
    requires chunk <= 30
    ensures NewLength([224 + chunk] + rest) == Some(Length(Pow2(chunk), true, rest))
  {
    hide Pow2;
    assert ([224 + chunk] + rest)[1..] == rest;
  }

  lemma ParsePrintChunk(chunk: nat, body: seq<Octet>, tail: seq<Octet>, rest: seq<Octet>)
    requires chunk <= 30 && Pow2(chunk) <= |body|
    requires NewBody(tail) == Some((body[Pow2(chunk)..], rest))
    ensures NewBody([224 + chunk] + body[..Pow2(chunk)] + tail) == Some((body, rest))
  {
    hide NewLength, Pow2;
    var size := Pow2(chunk);
    var data, after := [224 + chunk] + body[..size] + tail, body[..size] + tail;
    PartialLength(chunk, after);
    assert data == [224 + chunk] + after;
    assert after[..size] == body[..size] && after[size..] == tail;
    assert body == body[..size] + body[size..];
  }

  lemma ParsePrintLast(body: seq<Octet>, last: LengthForm, rest: seq<Octet>)
    requires FitsLength(|body|, last)
    ensures NewBody(PrintLength(|body|, last) + (body + rest)) == Some((body, rest))
  {
    ParsePrintLength(|body|, last, body + rest);
    assert (body + rest)[..|body|] == body && (body + rest)[|body|..] == rest;
  }

  lemma PrintBodyThen(body: seq<Octet>, chunks: seq<nat>, last: LengthForm, rest: seq<Octet>)
    requires FitsChunks(chunks, last, |body|)
    ensures chunks == [] ==> PrintBody(body, chunks, last) + rest == PrintLength(|body|, last) + (body + rest)
    ensures chunks != [] ==>
              var size := Pow2(chunks[0]);
              PrintBody(body, chunks, last) + rest
              == [224 + chunks[0]] + body[..size] + (PrintBody(body[size..], chunks[1..], last) + rest)
  {
  }

  lemma {:induction false} ParsePrintBody(body: seq<Octet>, chunks: seq<nat>, last: LengthForm, rest: seq<Octet>)
    requires FitsChunks(chunks, last, |body|)
    ensures NewBody(PrintBody(body, chunks, last) + rest) == Some((body, rest))
  {
    hide NewBody, PrintBody, PrintLength;
    PrintBodyThen(body, chunks, last, rest);
    if chunks == [] {
      ParsePrintLast(body, last, rest);
    } else {
      var size := Pow2(chunks[0]);
      ParsePrintBody(body[size..], chunks[1..], last, rest);
      ParsePrintChunk(chunks[0], body, PrintBody(body[size..], chunks[1..], last) + rest, rest);
    }
  }

  lemma OldHeader(tag: nat, kind: nat)
    requires tag < 16 && kind < 3
    ensures (128 + 4 * tag + kind) % 128 < 64
    ensures (128 + 4 * tag + kind) / 4 % 16 == tag && (128 + 4 * tag + kind) % 4 == kind
  {
  }

  lemma ParsePrintOld(tag: nat, kind: nat, body: seq<Octet>, rest: seq<Octet>)
    requires tag < 16 && kind < 3 && |body| < Pow256(OldWidth(kind))
    ensures OldPacket(tag, kind, ToBytes(|body|, OldWidth(kind)) + (body + rest)) == Some(Packet(tag, body, rest))
  {
    hide FromBytes, ToBytes, Pow256;
    var width := OldWidth(kind);
    var data := ToBytes(|body|, width) + (body + rest);
    FromToBytes(|body|, width);
    assert data[..width] == ToBytes(|body|, width) && data[width..] == body + rest;
    assert (body + rest)[..|body|] == body && (body + rest)[|body|..] == rest;
  }

  lemma PrintPacketThen(tag: nat, body: seq<Octet>, form: Form, rest: seq<Octet>)
    requires Legal(tag, body, form)
    ensures form.New? ==>
              var printed := PrintBody(body, form.chunks, form.last);
              PrintPacket(tag, body, form) + rest == [192 + tag] + (printed + rest)
    ensures form.Old? ==>
              var size := ToBytes(|body|, OldWidth(form.kind));
              PrintPacket(tag, body, form) + rest == [128 + 4 * tag + form.kind] + (size + (body + rest))
  {
    hide PrintBody, ToBytes, Pow256, FitsChunks;
    if form.New? {
      Regroup([192 + tag], PrintBody(body, form.chunks, form.last), [], rest);
    } else {
      Regroup([128 + 4 * tag + form.kind], ToBytes(|body|, OldWidth(form.kind)), body, rest);
    }
  }

  lemma Regroup(a: seq<Octet>, b: seq<Octet>, c: seq<Octet>, d: seq<Octet>)
    ensures a + b + c + d == a + (b + (c + d)) && a + b + d == a + (b + d)
  {
  }

  lemma ParseFirst(first: Octet, data: seq<Octet>)
    requires first >= 128
    ensures ParsePacket([first] + data)
         == if first % 128 >= 64 then NewPacket(first % 64, data) else OldPacket(first / 4 % 16, first % 4, data)
  {
    hide NewPacket, OldPacket;
    assert ([first] + data)[1..] == data;
  }

  /** Every printed packet, followed by any octets, parses back to its tag, body and end. */
  lemma ParsePrintPacket(tag: nat, body: seq<Octet>, form: Form, rest: seq<Octet>)
    requires Legal(tag, body, form)
    ensures ParsePacket(PrintPacket(tag, body, form) + rest) == Some(Packet(tag, body, rest))
  {
    hide ParsePacket, NewBody, OldPacket, PrintBody, PrintPacket, ToBytes, Pow256, FitsChunks;
    PrintPacketThen(tag, body, form, rest);
    match form
    case New(chunks, last) =>
      ParsePrintBody(body, chunks, last, rest);
      ParseFirst(192 + tag, PrintBody(body, chunks, last) + rest);
    case Old(kind) =>
      OldHeader(tag, kind);
      ParsePrintOld(tag, kind, body, rest);
      ParseFirst(128 + 4 * tag + kind, ToBytes(|body|, OldWidth(kind)) + (body + rest));
  }

  // ------------------------------------------- every accepted packet is printed

  lemma LengthIsPrinted(data: seq<Octet>) returns (form: LengthForm)
    requires NewLength(data).Some? && !NewLength(data).value.partial
    ensures FitsLength(NewLength(data).value.size, form)
    ensures data == PrintLength(NewLength(data).value.size, form) + NewLength(data).value.rest
  {
    if data[0] < 192 {
      form := OneOctet;
    } else if data[0] < 224 {
      form := TwoOctet;
      assert data == [data[0], data[1]] + data[1..][1..];
    } else {
      form := FiveOctet;
      ToFromBytes(data[1..][..4]);
      assert data == [255] + data[1..][..4] + data[1..][4..];
    }
  }

  /** One step of the body parser, read backwards. */
  lemma PartialHeader(data: seq<Octet>)
    requires NewLength(data).Some? && NewLength(data).value.partial
    ensures 224 <= data[0] <= 254
    ensures NewLength(data).value == Length(Pow2(data[0] - 224), true, data[1..])
  {
    hide Pow2;
    assert data[0] % 32 == data[0] - 224;
  }

  lemma ChunkIsPrinted(data: seq<Octet>) returns (chunk: nat, tail: seq<Octet>)
    requires NewBody(data).Some? && NewLength(data).value.partial
    ensures chunk <= 30 && |tail| < |data| && NewBody(tail).Some?
    ensures var (body, after) := NewBody(data).value;
            && Pow2(chunk) <= |body|
            && data == [224 + chunk] + body[..Pow2(chunk)] + tail
            && NewBody(tail) == Some((body[Pow2(chunk)..], after))
  {
    PartialHeader(data);
    hide NewLength, Pow2;
    chunk := data[0] - 224;
    var size, rest := Pow2(chunk), data[1..];
    tail := rest[size..];
    var body := NewBody(data).value.0;
    assert body == rest[..size] + NewBody(tail).value.0;
    assert body[..size] == rest[..size] && body[size..] == NewBody(tail).value.0;
    assert data == [data[0]] + rest[..size] + tail;
  }

  lemma LastIsPrinted(data: seq<Octet>) returns (last: LengthForm)
    requires NewBody(data).Some? && !NewLength(data).value.partial
    ensures var (body, after) := NewBody(data).value;
            FitsLength(|body|, last) && data == PrintLength(|body|, last) + (body + after)
  {
    last := LengthIsPrinted(data);
    var Length(size, partial, rest) := NewLength(data).value;
    assert rest == rest[..size] + rest[size..];
  }

  lemma PrependChunk(chunk: nat, chunks: seq<nat>, last: LengthForm, size: nat)
    requires chunk <= 30 && Pow2(chunk) <= size && FitsChunks(chunks, last, size - Pow2(chunk))
    ensures FitsChunks([chunk] + chunks, last, size) && ([chunk] + chunks)[1..] == chunks
  {
    assert ([chunk] + chunks)[1..] == chunks;
  }

  lemma {:induction false} BodyIsPrinted(data: seq<Octet>) returns (chunks: seq<nat>, last: LengthForm)
    requires NewBody(data).Some?
    ensures FitsChunks(chunks, last, |NewBody(data).value.0|)
    ensures data == PrintBody(NewBody(data).value.0, chunks, last) + NewBody(data).value.1
    decreases |data|
  {
    assert NewLength(data).Some?;
    hide NewBody, PrintBody, PrintLength, NewLength;
    var (body, after) := NewBody(data).value;
    if !NewLength(data).value.partial {
      last := LastIsPrinted(data);
      chunks := [];
    } else {
      var chunk, tail := ChunkIsPrinted(data);
      var more;
      more, last := BodyIsPrinted(tail);
      chunks := [chunk] + more;
      PrependChunk(chunk, more, last, |body|);
    }
    hide FitsChunks;
    PrintBodyThen(body, chunks, last, after);
  }

  lemma OldIsPrinted(tag: nat, kind: nat, data: seq<Octet>)
    requires tag < 16 && kind < 3 && OldPacket(tag, kind, data).Some?
    ensures var p := OldPacket(tag, kind, data).value;
            && |p.body| < Pow256(OldWidth(kind))
            && data == ToBytes(|p.body|, OldWidth(kind)) + (p.body + p.rest)
  {
    hide ToBytes, Pow256, FromBytes, OldWidth;
    var width := OldWidth(kind);
    ToFromBytes(data[..width]);
    var p := OldPacket(tag, kind, data).value;
    assert |data[..width]| == width && FromBytes(data[..width]) == |p.body|;
    assert data == data[..width] + data[width..];
    assert data[width..] == p.body + p.rest;
  }

  /** The accepted octets are the printing of exactly the tag and body that were returned. */
  lemma PacketIsPrinted(data: seq<Octet>) returns (form: Form)
    requires ParsePacket(data).Some?
    ensures var p := ParsePacket(data).value;
            Legal(p.tag, p.body, form) && data == PrintPacket(p.tag, p.body, form) + p.rest
  {
    assert data != [] && data[0] >= 128;
    hide ParsePacket, NewBody, OldPacket, PrintBody, PrintPacket, ToBytes, Pow256, FitsChunks;
    assert data == [data[0]] + data[1..];
    ParseFirst(data[0], data[1..]);
    var p := ParsePacket(data).value;
    if data[0] % 128 >= 64 {
      assert data[0] == 192 + data[0] % 64;
      var chunks, last := BodyIsPrinted(data[1..]);
      form := New(chunks, last);
    } else {
      var tag, kind := data[0] / 4 % 16, data[0] % 4;
      assert kind != 3;
      assert data[0] == 128 + 4 * tag + kind;
      form := Old(kind);
      OldIsPrinted(tag, kind, data[1..]);
    }
    PrintPacketThen(p.tag, p.body, form, p.rest);
  }

  // ---------------------------------------------------- the encrypted message

  datatype Framed = Framed(tag: nat, body: seq<Octet>, form: Form)

  const MAX_KEYS := 128

  predicate IsKeyPacket(tag: nat, body: seq<Octet>) {
    || (tag == 1 && |body| >= 10 && body[0] in {3, 6})
    || (tag == 3 && |body| >= 4 && body[0] in {4, 5, 6})
  }

  predicate IsDataPacket(tag: nat, body: seq<Octet>) {
    || (tag == 18 && |body| >= 33 && body[0] in {1, 2})
    || (tag == 20 && |body| >= 33 && body[0] == 1)
  }

  /** The container loop: key packets, then exactly one data packet that ends the input. */
  function Scan(data: seq<Octet>, keys: nat): bool
    decreases |data|
  {
    match ParsePacket(data)
    case None => false
    case Some(Packet(tag, body, rest)) =>
      if tag in {1, 3} then IsKeyPacket(tag, body) && keys + 1 <= MAX_KEYS && Scan(rest, keys + 1)
      else IsDataPacket(tag, body) && keys > 0 && rest == []
  }

  method GpgContainer(data: seq<Octet>) returns (accepted: bool)
    ensures accepted == Scan(data, 0)
  {
    hide ParsePacket;
    var offset, keys := 0, 0;
    while offset < |data|
      invariant 0 <= offset <= |data| && 0 <= keys
      invariant Scan(data, 0) == Scan(data[offset..], keys)
      decreases |data| - offset
    {
      var packet := PgpPacket(data, offset);
      if packet.None? { return false; }
      var (tag, body, next) := packet.value;
      offset := next;
      if tag in {1, 3} {
        if |body| < (if tag == 1 then 10 else 4) { return false; }
        if body[0] !in (if tag == 1 then {3, 6} else {4, 5, 6}) { return false; }
        keys := keys + 1;
        if keys > MAX_KEYS { return false; }
      } else {
        return
          && tag in {18, 20}
          && keys > 0
          && |body| >= 33
          && body[0] in (if tag == 18 then {1, 2} else {1})
          && offset == |data|;
      }
    }
    return false;
  }

  ghost predicate AllLegal(packets: seq<Framed>) {
    forall i :: 0 <= i < |packets| ==> Legal(packets[i].tag, packets[i].body, packets[i].form)
  }

  ghost function PrintAll(packets: seq<Framed>): seq<Octet>
    requires AllLegal(packets)
  {
    if packets == [] then []
    else PrintPacket(packets[0].tag, packets[0].body, packets[0].form) + PrintAll(packets[1..])
  }

  /** At least `1 - keys` and at most `128 - keys` key packets, then one data packet. */
  ghost predicate EncryptedMessage(packets: seq<Framed>, keys: nat) {
    && packets != []
    && AllLegal(packets)
    && (forall i :: 0 <= i < |packets| - 1 ==> IsKeyPacket(packets[i].tag, packets[i].body))
    && IsDataPacket(packets[|packets| - 1].tag, packets[|packets| - 1].body)
    && 0 < keys + |packets| - 1 <= MAX_KEYS
  }

  lemma {:induction false} ScanPrinted(packets: seq<Framed>, keys: nat)
    requires EncryptedMessage(packets, keys)
    ensures Scan(PrintAll(packets), keys)
  {
    hide ParsePacket, PrintPacket, Legal;
    var p := packets[0];
    ParsePrintPacket(p.tag, p.body, p.form, PrintAll(packets[1..]));
    if |packets| > 1 {
      ScanPrinted(packets[1..], keys + 1);
    }
  }

  lemma {:induction false} ScannedIsPrinted(data: seq<Octet>, keys: nat) returns (packets: seq<Framed>)
    requires Scan(data, keys) && keys <= MAX_KEYS
    ensures EncryptedMessage(packets, keys) && data == PrintAll(packets)
    decreases |data|
  {
    hide ParsePacket, PrintPacket, Legal;
    var form := PacketIsPrinted(data);
    var Packet(tag, body, rest) := ParsePacket(data).value;
    var more: seq<Framed> := [];
    if tag in {1, 3} {
      more := ScannedIsPrinted(rest, keys + 1);
    }
    packets := [Framed(tag, body, form)] + more;
    assert packets[1..] == more;
    assert data == PrintPacket(tag, body, form) + PrintAll(more);
  }

  /** The binary container is accepted exactly when it is 1 to 128 key packets and one data packet. */
  lemma ContainerIff(data: seq<Octet>)
    ensures Scan(data, 0) <==> exists packets :: EncryptedMessage(packets, 0) && data == PrintAll(packets)
  {
    if Scan(data, 0) {
      var packets := ScannedIsPrinted(data, 0);
    }
    forall packets | EncryptedMessage(packets, 0) && data == PrintAll(packets)
      ensures Scan(data, 0)
    {
      ScanPrinted(packets, 0);
    }
  }

  /**
   * The shape of a message in plain numbers: one to 128 session-key packets, public-key (tag 1) of
   * at least ten octets in version 3 or 6 or password (tag 3) of at least four octets in version
   * 4, 5 or 6, and then one protected data packet of at least 33 octets, tag 18 in version 1 or 2
   * or tag 20 in version 1.
   */
  ghost predicate MessageOf(data: seq<Octet>, packets: seq<Framed>) {
    && AllLegal(packets) && data == PrintAll(packets) && 2 <= |packets| <= 129
    && (forall i :: 0 <= i < |packets| - 1 ==>
          var p := packets[i];
          || (p.tag == 1 && |p.body| >= 10 && (p.body[0] == 3 || p.body[0] == 6))
          || (p.tag == 3 && |p.body| >= 4 && 4 <= p.body[0] <= 6))
    && var last := packets[|packets| - 1];
       |last.body| >= 33
       && ((last.tag == 18 && 1 <= last.body[0] <= 2) || (last.tag == 20 && last.body[0] == 1))
  }

  ghost predicate Message(data: seq<Octet>) {
    exists packets: seq<Framed> :: MessageOf(data, packets)
  }

  lemma MessageIff(data: seq<Octet>)
    ensures Scan(data, 0) <==> Message(data)
  {
    hide Scan, PrintAll, AllLegal;
    ContainerIff(data);
    if Scan(data, 0) {
      var packets :| EncryptedMessage(packets, 0) && data == PrintAll(packets);
      assert MessageOf(data, packets);
    }
    if Message(data) {
      var packets :| MessageOf(data, packets);
      assert EncryptedMessage(packets, 0);
    }
  }

  // ------------------------------------------------- frames, octet by octet

  lemma PlainPowers()
    ensures Pow256(1) == 256 && Pow256(2) == 65536 && Pow256(4) == 4294967296
  {
    assert Pow256(0) == 1;
    assert Pow256(3) == 256 * Pow256(2);
  }

  lemma OneByte(n: nat)
    requires n < 256
    ensures n < Pow256(1) && ToBytes(n, 1) == [n]
  {
    PlainPowers();
    assert ToBytes(n / 256, 0) == [] && n % 256 == n;
  }

  lemma TwoBytes(n: nat)
    requires n < 65536
    ensures n < Pow256(2) && ToBytes(n, 2) == [n / 256, n % 256]
  {
    PlainPowers();
    OneByte(n / 256);
  }

  lemma FourBytes(n: nat)
    requires n < 4294967296
    ensures n < Pow256(4) && ToBytes(n, 4) == [n / 16777216, n / 65536 % 256, n / 256 % 256, n % 256]
  {
    PlainPowers();
    TwoBytes(n / 65536);
    assert n / 256 < Pow256(3) by { assert Pow256(3) == 256 * Pow256(2); }
    assert ToBytes(n / 256, 3) == ToBytes(n / 256 / 256, 2) + [n / 256 % 256];
    assert ToBytes(n, 4) == ToBytes(n / 256, 3) + [n % 256];
    assert n / 256 / 256 == n / 65536 && n / 65536 / 256 == n / 16777216;
  }

  /** Every body may stand in an old-format packet with one, two or four length octets, big-endian. */
  lemma OldFrames(tag: nat, body: seq<Octet>, rest: seq<Octet>)
    requires tag < 16
    ensures var n := |body|;
            && (n < 256 ==> ParsePacket([128 + 4 * tag, n] + body + rest) == Some(Packet(tag, body, rest)))
            && (n < 65536 ==> ParsePacket([129 + 4 * tag, n / 256, n % 256] + body + rest) == Some(Packet(tag, body, rest)))
            && (n < 4294967296 ==>
                  ParsePacket([130 + 4 * tag, n / 16777216, n / 65536 % 256, n / 256 % 256, n % 256] + body + rest)
                  == Some(Packet(tag, body, rest)))
  {
    hide ParsePacket, Pow256, ToBytes;
    var n := |body|;
    PlainPowers();
    if n < 4294967296 {
      FourBytes(n);
      ParsePrintPacket(tag, body, Old(2), rest);
      assert [130 + 4 * tag] + ToBytes(n, 4) == [130 + 4 * tag, n / 16777216, n / 65536 % 256, n / 256 % 256, n % 256];
    }
    if n < 65536 {
      TwoBytes(n);
      ParsePrintPacket(tag, body, Old(1), rest);
      assert [129 + 4 * tag] + ToBytes(n, 2) == [129 + 4 * tag, n / 256, n % 256];
    }
    if n < 256 {
      OneByte(n);
      ParsePrintPacket(tag, body, Old(0), rest);
      assert [128 + 4 * tag] + ToBytes(n, 1) == [128 + 4 * tag, n];
    }
  }

  lemma NewOneOctet(tag: nat, body: seq<Octet>, rest: seq<Octet>)
    requires tag < 64 && |body| < 192
    ensures ParsePacket([192 + tag, |body|] + body + rest) == Some(Packet(tag, body, rest))
  {
    hide ParsePacket;
    ParsePrintPacket(tag, body, New([], OneOctet), rest);
    assert [192 + tag] + ([|body|] + body) == [192 + tag, |body|] + body;
  }

  lemma NewTwoOctets(tag: nat, body: seq<Octet>, rest: seq<Octet>)
    requires tag < 64 && 192 <= |body| < 8384
    ensures var n := |body|;
            ParsePacket([192 + tag, 192 + (n - 192) / 256, (n - 192) % 256] + body + rest) == Some(Packet(tag, body, rest))
  {
    hide ParsePacket;
    var high: Octet, low: Octet := 192 + (|body| - 192) / 256, (|body| - 192) % 256;
    ParsePrintPacket(tag, body, New([], TwoOctet), rest);
    assert [192 + tag] + ([high, low] + body) == [192 + tag, high, low] + body;
  }

  lemma NewFiveOctets(tag: nat, body: seq<Octet>, rest: seq<Octet>)
    requires tag < 64 && |body| < 4294967296
    ensures var n := |body|;
            ParsePacket([192 + tag, 255, n / 16777216, n / 65536 % 256, n / 256 % 256, n % 256] + body + rest)
            == Some(Packet(tag, body, rest))
  {
    hide ParsePacket, Pow256, ToBytes;
    var n := |body|;
    FourBytes(n);
    ParsePrintPacket(tag, body, New([], FiveOctet), rest);
    var size := ToBytes(n, 4);
    assert [192 + tag] + ([255] + size + body) == [192 + tag, 255] + size + body;
    assert [192 + tag, 255] + size == [192 + tag, 255, n / 16777216, n / 65536 % 256, n / 256 % 256, n % 256];
  }

  /** And in a new-format packet with one, two or five length octets. */
  lemma NewFrames(tag: nat, body: seq<Octet>, rest: seq<Octet>)
    requires tag < 64
    ensures var n := |body|;
            && (n < 192 ==> ParsePacket([192 + tag, n] + body + rest) == Some(Packet(tag, body, rest)))
            && (192 <= n < 8384 ==>
                  ParsePacket([192 + tag, 192 + (n - 192) / 256, (n - 192) % 256] + body + rest) == Some(Packet(tag, body, rest)))
            && (n < 4294967296 ==>
                  ParsePacket([192 + tag, 255, n / 16777216, n / 65536 % 256, n / 256 % 256, n % 256] + body + rest)
                  == Some(Packet(tag, body, rest)))
  {
    hide ParsePacket;
    if |body| < 192 { NewOneOctet(tag, body, rest); }
    if 192 <= |body| < 8384 { NewTwoOctets(tag, body, rest); }
    if |body| < 4294967296 { NewFiveOctets(tag, body, rest); }
  }
}
