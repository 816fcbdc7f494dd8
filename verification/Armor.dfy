/** ASCII armor (section 6.2 of RFC 4880, and the age variant without headers or checksum). */
module Armor {
  import opened Wrappers
  import opened Octets
  import opened Lines
  import Base64
  import Crc24

  const EQUALS: Octet := 61
  const COLON: Octet := 58
  const SPACE: Octet := 32

  function Ascii(s: string): (r: seq<Octet>)
    ensures |r| == |s|
  {
    seq(|s|, i requires 0 <= i < |s| => s[i] as int % 256)
  }

  function Begin(pgp: bool): seq<Octet> {
    if pgp then Ascii("-----BEGIN PGP MESSAGE-----") else Ascii("-----BEGIN AGE ENCRYPTED FILE-----")
  }

  function End(pgp: bool): seq<Octet> {
    if pgp then Ascii("-----END PGP MESSAGE-----") else Ascii("-----END AGE ENCRYPTED FILE-----")
  }

  // ---------------------------------------------------------------- header lines

  predicate Letter(c: Octet) { 65 <= c <= 90 || 97 <= c <= 122 }

  predicate NameTail(c: Octet) { Letter(c) || 48 <= c <= 57 || c == 45 }

  /** How many octets of a line can belong to a header name. */
  function NameLength(line: seq<Octet>): (n: nat)
    ensures n <= |line|
  {
    if line == [] || !NameTail(line[0]) then 0 else 1 + NameLength(line[1..])
  }

  predicate Printable(text: seq<Octet>) {
    forall i :: 0 <= i < |text| ==> 32 <= text[i] <= 126
  }

  /** The header pattern: a name that starts with a letter, a colon, a space, printable text. */
  predicate IsHeader(line: seq<Octet>) {
    var n := NameLength(line);
    && n > 0
    && Letter(line[0])
    && n + 2 <= |line|
    && line[n] == COLON
    && line[n + 1] == SPACE
    && Printable(line[n + 2..])
  }

  // --------------------------------------------------------------------- reading

  function DropEmpty(lines: seq<seq<Octet>>): seq<seq<Octet>> {
    if lines != [] && lines[|lines| - 1] == [] then DropEmpty(lines[..|lines| - 1]) else lines
  }

  /** The lines after the header block and its blank line. */
  function SkipHeaders(body: seq<seq<Octet>>): Option<seq<seq<Octet>>> {
    if body == [] then None
    else if body[0] == [] then Some(body[1..])
    else if IsHeader(body[0]) then SkipHeaders(body[1..])
    else None
  }

  /** The low n binary digits of a number, as a word. */
  function Digits(a: nat, n: nat): bv8
    decreases n
  {
    if n == 0 then 0 else Push(Digits(a / 2, n - 1), a % 2 == 1)
  }

  function Push(word: bv8, digit: bool): bv8 {
    (word << 1) | (if digit then 1 else 0)
  }

  /** An octet as eight bits, and eight bits as an octet. */
  function Bits(a: Octet): bv8 { Digits(a, 8) }

  function Number(b: bv8): Octet {
    (if b & 0x80 != 0 then 128 else 0) + (if b & 0x40 != 0 then 64 else 0)
    + (if b & 0x20 != 0 then 32 else 0) + (if b & 0x10 != 0 then 16 else 0)
    + (if b & 0x08 != 0 then 8 else 0) + (if b & 0x04 != 0 then 4 else 0)
    + (if b & 0x02 != 0 then 2 else 0) + (if b & 0x01 != 0 then 1 else 0)
  }

  lemma NumberOfPush(word: bv8, digit: bool)
    requires Number(word) < 128
    ensures Number(Push(word, digit)) == 2 * Number(word) + if digit then 1 else 0
  {
  }

  lemma {:induction false} NumberOfDigits(a: nat, n: nat)
    requires n <= 8 && a < Pow2(n)
    ensures Number(Digits(a, n)) == a
    decreases n
  {
    hide Number, Push;
    if n == 0 {
      NumberOfZero();
    } else {
      NumberOfDigits(a / 2, n - 1);
      PowersBelow(n);
      NumberOfPush(Digits(a / 2, n - 1), a % 2 == 1);
    }
  }

  lemma NumberOfZero()
    ensures Number(0) == 0
  {
  }

  lemma {:induction false} PowersBelow(n: nat)
    requires n <= 8
    ensures Pow2(n) <= 256 && (n > 0 ==> Pow2(n - 1) <= 128)
    decreases 8 - n
  {
    if n < 8 {
      PowersBelow(n + 1);
    } else {
      assert Pow2(8) == 256;
    }
  }

  lemma NumberOfBits(a: Octet)
    ensures Number(Bits(a)) == a
  {
    hide Number, Digits;
    assert Pow2(8) == 256;
    NumberOfDigits(a, 8);
  }

  lemma NumberDiffers(a: bv8, b: bv8)
    ensures Number(a) == Number(b) ==> a == b
  {
  }

  function ToBits(data: seq<Octet>): (r: seq<bv8>)
    ensures |r| == |data|
  {
    seq(|data|, i requires 0 <= i < |data| => Bits(data[i]))
  }

  /** The three octets of the checksum of a decoded message. */
  function ChecksumOf(decoded: seq<Octet>): (crc: seq<Octet>)
    ensures |crc| == 3
  {
    var c := Crc24.Octets(Crc24.Crc(ToBits(decoded)));
    [Number(c[0]), Number(c[1]), Number(c[2])]
  }

  predicate HasChecksum(body: seq<seq<Octet>>) {
    body != [] && body[|body| - 1] != [] && body[|body| - 1][0] == EQUALS
  }

  predicate Columns(body: seq<seq<Octet>>) {
    body != [] && forall i :: 0 <= i < |body| ==> 0 < |body[i]| <= 64
  }

  /** Payload lines with an optional checksum to compare. */
  function Payload(body: seq<seq<Octet>>, crc: Option<seq<Octet>>): Option<seq<Octet>> {
    if !Columns(body) then None
    else
      match Base64.Parse(Concat(body), true)
      case None => None
      case Some(decoded) => if crc.None? || ChecksumOf(decoded) == crc.value then Some(decoded) else None
  }

  /** The body after the headers, for a PGP message. */
  function PgpBody(body: seq<seq<Octet>>): Option<seq<Octet>> {
    if HasChecksum(body) then
      var n := |body| - 1;
      match Base64.Parse(body[n][1..], true)
      case None => None
      case Some(crc) => if |crc| == 3 then Payload(body[..n], Some(crc)) else None
    else Payload(body, None)
  }

  function UnarmorLines(lines: seq<seq<Octet>>, pgp: bool): Option<seq<Octet>> {
    var n := |lines|;
    if n < 3 || lines[0] != Begin(pgp) || lines[n - 1] != End(pgp) then None
    else if !pgp then Payload(lines[1..n - 1], None)
    else
      match SkipHeaders(lines[1..n - 1])
      case None => None
      case Some(body) => PgpBody(body)
  }

  function Unarmor(data: seq<Octet>, pgp: bool): Option<seq<Octet>> {
    UnarmorLines(DropEmpty(Split(UnixEnds(data))), pgp)
  }

  /** Blank lines at the end are popped one by one. */
  method PopBlankLines(start: seq<seq<Octet>>) returns (lines: seq<seq<Octet>>)
    ensures lines == DropEmpty(start)
  {
    lines := start;
    while lines != [] && lines[|lines| - 1] == []
      invariant DropEmpty(lines) == DropEmpty(start)
      decreases |lines|
    {
      lines := lines[..|lines| - 1];
    }
  }

  /** Header lines are popped from the front, up to and including the blank line. */
  method PopHeaders(start: seq<seq<Octet>>) returns (r: Option<seq<seq<Octet>>>)
    ensures r == SkipHeaders(start)
  {
    var body := start;
    while body != [] && body[0] != []
      invariant SkipHeaders(body) == SkipHeaders(start)
      decreases |body|
    {
      if !IsHeader(body[0]) { return None; }
      body := body[1..];
    }
    return if body == [] then None else Some(body[1..]);
  }

  /** The whole reader: labels, headers, optional checksum, columns, payload, comparison. */
  method Read(data: seq<Octet>, pgp: bool) returns (r: Option<seq<Octet>>)
    ensures r == Unarmor(data, pgp)
  {
    hide DropEmpty, SkipHeaders, Begin, End, Base64.Parse, Concat, Columns, Crc24.Crc, Crc24.Octets, Number;
    var lines := PopBlankLines(Split(UnixEnds(data)));
    var n := |lines|;
    if n < 3 || lines[0] != Begin(pgp) || lines[n - 1] != End(pgp) { return None; }
    var body := lines[1..n - 1];
    var crc := None;
    if pgp {
      var popped := PopHeaders(body);
      if popped.None? { return None; }
      body := popped.value;
      if body != [] && body[|body| - 1] != [] && body[|body| - 1][0] == EQUALS {
        crc := Base64.Parse(body[|body| - 1][1..], true);
        if crc.None? || |crc.value| != 3 { return None; }
        body := body[..|body| - 1];
      }
    }
    assert Unarmor(data, pgp) == Payload(body, crc);
    if !Columns(body) { return None; }
    var decoded := Base64.Parse(Concat(body), true);
    if decoded.None? { return None; }
    if crc.Some? {
      var value := Crc24.Checksum(ToBits(decoded.value));
      var octets := Crc24.Octets(value);
      if [Number(octets[0]), Number(octets[1]), Number(octets[2])] != crc.value { return None; }
    }
    return decoded;
  }

  // -------------------------------------------------------------------- printing

  ghost predicate AllHeaders(headers: seq<seq<Octet>>) {
    forall i :: 0 <= i < |headers| ==> IsHeader(headers[i])
  }

  function CrcLine(crc: seq<Octet>): seq<Octet> {
    [EQUALS] + Base64.Encode(crc)
  }

  /** Encoded text in 64 columns between its labels, with headers and a checksum line for PGP. */
  function Framed(text: seq<Octet>, pgp: bool, headers: seq<seq<Octet>>, line: Option<seq<Octet>>): seq<seq<Octet>> {
    if pgp then
      [Begin(pgp)] + (headers + ([[]] + (Wrap(text) + if line.None? then [] else [line.value]))) + [End(pgp)]
    else [Begin(pgp)] + Wrap(text) + [End(pgp)]
  }

  /** The lines of an armored message. */
  function ArmorLines(data: seq<Octet>, pgp: bool, headers: seq<seq<Octet>>, crc: Option<seq<Octet>>): seq<seq<Octet>> {
    Framed(Base64.Encode(data), pgp, headers, if crc.None? then None else Some(CrcLine(crc.value)))
  }

  /** The armored text, with either line end and any number of blank lines after it. */
  function Print(data: seq<Octet>, pgp: bool, headers: seq<seq<Octet>>, crc: Option<seq<Octet>>, crlf: bool, blank: nat): seq<Octet> {
    Unlines(ArmorLines(data, pgp, headers, crc) + seq(blank, _ => []), crlf)
  }

  // ------------------------------------------------------- reading undoes printing

  lemma AsciiIsPlain(s: string)
    requires forall i :: 0 <= i < |s| ==> ' ' <= s[i] <= '~'
    ensures Plain(Ascii(s))
  {
  }

  lemma LabelsArePlain(pgp: bool)
    ensures Plain(Begin(pgp)) && Plain(End(pgp)) && End(pgp) != []
  {
    hide Plain;
    if pgp {
      AsciiIsPlain("-----BEGIN PGP MESSAGE-----");
      AsciiIsPlain("-----END PGP MESSAGE-----");
    } else {
      AsciiIsPlain("-----BEGIN AGE ENCRYPTED FILE-----");
      AsciiIsPlain("-----END AGE ENCRYPTED FILE-----");
    }
  }

  lemma {:induction false} NameIsPlain(line: seq<Octet>)
    ensures forall i :: 0 <= i < NameLength(line) ==> NameTail(line[i])
  {
    if line != [] && NameTail(line[0]) {
      NameIsPlain(line[1..]);
    }
  }

  lemma HeaderIsPlain(line: seq<Octet>)
    requires IsHeader(line)
    ensures Plain(line) && line != []
  {
    NameIsPlain(line);
    var n := NameLength(line);
    forall i | 0 <= i < |line|
      ensures line[i] != LF && line[i] != CR
    {
      if i >= n + 2 {
        assert line[i] == line[n + 2..][i - n - 2];
      }
    }
  }

  lemma ShapedIsPlain(text: seq<Octet>, k: nat)
    requires Base64.Shaped(text, k)
    ensures forall i :: 0 <= i < |text| ==> text[i] != LF && text[i] != CR
  {
  }

  lemma WrappedIsPlain(text: seq<Octet>)
    requires forall i :: 0 <= i < |text| ==> text[i] != LF && text[i] != CR
    ensures AllPlain(Wrap(text))
  {
    var lines := Wrap(text);
    forall i, j | 0 <= i < |lines| && 0 <= j < |lines[i]|
      ensures lines[i][j] != LF && lines[i][j] != CR
    {
      WrappedIn(text, i, j);
    }
  }

  /** Groups of four start with a symbol, so no payload line starts with the checksum mark. */
  lemma {:induction false} LinesStartWithSymbols(text: seq<Octet>, i: nat)
    requires forall m :: 0 <= m && 4 * m < |text| ==> Base64.IsSymbol(text[4 * m])
    requires i < |Wrap(text)|
    ensures Base64.IsSymbol(Wrap(text)[i][0])
  {
    if i == 0 {
      assert Base64.IsSymbol(text[4 * 0]);
    } else {
      forall m | 0 <= m && 4 * m < |text[64..]|
        ensures Base64.IsSymbol(text[64..][4 * m])
      {
        assert text[64..][4 * m] == text[4 * (m + 16)];
      }
      LinesStartWithSymbols(text[64..], i - 1);
    }
  }

  lemma GroupsStartWithSymbols(text: seq<Octet>, k: nat)
    requires Base64.Shaped(text, k) && k <= 2
    ensures forall m :: 0 <= m && 4 * m < |text| ==> Base64.IsSymbol(text[4 * m])
  {
    hide Base64.IsSymbol;
    forall m | 0 <= m && 4 * m < |text|
      ensures Base64.IsSymbol(text[4 * m])
    {
      assert 4 * m <= |text| - 4;
    }
  }

  lemma NoFalseChecksum(data: seq<Octet>)
    ensures !HasChecksum(Wrap(Base64.Encode(data)))
  {
    Base64.EncodedShape(data);
    hide Base64.Encode, Base64.Shaped;
    var text := Base64.Encode(data);
    GroupsStartWithSymbols(text, Base64.PadCount(|data|));
    var lines := Wrap(text);
    if lines != [] {
      LinesStartWithSymbols(text, |lines| - 1);
    }
  }

  /** Lines of a text that parses are a payload, unless the text is empty. */
  lemma PayloadOfText(text: seq<Octet>, data: seq<Octet>, crc: Option<seq<Octet>>)
    requires Base64.Parse(text, true) == Some(data) && (text == [] <==> data == [])
    ensures Payload(Wrap(text), crc)
         == if data != [] && (crc.None? || ChecksumOf(data) == crc.value) then Some(data) else None
  {
    hide Base64.Parse, ChecksumOf;
    if data == [] {
      assert Wrap(text) == [];
    } else {
      assert Columns(Wrap(text));
    }
  }

  lemma EncodedText(data: seq<Octet>)
    ensures Base64.Parse(Base64.Encode(data), true) == Some(data) && (Base64.Encode(data) == [] <==> data == [])
  {
    Base64.EncodedShape(data);
    Base64.ParseIff(Base64.Encode(data), true, data);
    hide Base64.Parse;
  }

  lemma {:induction false} SkipPrintedHeaders(headers: seq<seq<Octet>>, rest: seq<seq<Octet>>)
    requires AllHeaders(headers)
    ensures SkipHeaders(headers + ([[]] + rest)) == Some(rest)
  {
    var body := headers + ([[]] + rest);
    if headers == [] {
      assert body[1..] == rest;
    } else {
      HeaderIsPlain(headers[0]);
      hide IsHeader;
      assert body[1..] == headers[1..] + ([[]] + rest);
      SkipPrintedHeaders(headers[1..], rest);
    }
  }

  /** A body of payload lines, and possibly a checksum line that parses. */
  lemma BodyOfText(text: seq<Octet>, data: seq<Octet>, crc: Option<seq<Octet>>, line: seq<Octet>)
    requires Base64.Parse(text, true) == Some(data) && (text == [] <==> data == []) && !HasChecksum(Wrap(text))
    requires crc.Some? ==> line != [] && line[0] == Base64.PAD && Base64.Parse(line[1..], true) == crc && |crc.value| == 3
    ensures PgpBody(Wrap(text) + if crc.None? then [] else [line])
         == if data != [] && (crc.None? || ChecksumOf(data) == crc.value) then Some(data) else None
  {
    hide Payload, Base64.Parse, ChecksumOf, Wrap;
    PayloadOfText(text, data, crc);
    if crc.None? {
      assert Wrap(text) + [] == Wrap(text);
    } else {
      var body := Wrap(text) + [line];
      assert body[..|body| - 1] == Wrap(text);
    }
  }

  /** Framed text that parses reads back, unless it is empty or its checksum line is wrong. */
  lemma UnarmorFramed(text: seq<Octet>, data: seq<Octet>, pgp: bool, headers: seq<seq<Octet>>,
                      crc: Option<seq<Octet>>, line: seq<Octet>)
    requires AllHeaders(headers) && (!pgp ==> crc.None?)
    requires Base64.Parse(text, true) == Some(data) && (text == [] <==> data == []) && !HasChecksum(Wrap(text))
    requires crc.Some? ==> line != [] && line[0] == Base64.PAD && Base64.Parse(line[1..], true) == crc && |crc.value| == 3
    ensures UnarmorLines(Framed(text, pgp, headers, if crc.None? then None else Some(line)), pgp)
         == if data != [] && (crc.None? || ChecksumOf(data) == crc.value) then Some(data) else None
  {
    hide Payload, PgpBody, Base64.Parse, ChecksumOf, Begin, End, HasChecksum, Wrap;
    var lines := Framed(text, pgp, headers, if crc.None? then None else Some(line));
    if pgp {
      var body := Wrap(text) + if crc.None? then [] else [line];
      assert lines[1..|lines| - 1] == headers + ([[]] + body);
      SkipPrintedHeaders(headers, body);
      BodyOfText(text, data, crc, line);
    } else {
      assert lines[1..|lines| - 1] == Wrap(text);
      PayloadOfText(text, data, None);
      EmptyPayload();
    }
  }

  lemma UnarmorPrintedLines(data: seq<Octet>, pgp: bool, headers: seq<seq<Octet>>, crc: Option<seq<Octet>>, lines: seq<seq<Octet>>)
    requires AllHeaders(headers) && (crc.Some? ==> |crc.value| == 3)
    requires (!pgp ==> crc.None?) && lines == ArmorLines(data, pgp, headers, crc)
    ensures UnarmorLines(lines, pgp) == if data != [] && (crc.None? || ChecksumOf(data) == crc.value) then Some(data) else None
  {
    EncodedText(data);
    NoFalseChecksum(data);
    hide UnarmorLines, Framed, Base64.Encode, Base64.Parse, ChecksumOf, Wrap, HasChecksum;
    if crc.None? {
      UnarmorFramed(Base64.Encode(data), data, pgp, headers, crc, []);
    } else {
      EncodedText(crc.value);
      assert CrcLine(crc.value)[1..] == Base64.Encode(crc.value);
      UnarmorFramed(Base64.Encode(data), data, pgp, headers, crc, CrcLine(crc.value));
    }
  }

  lemma EmptyPayload()
    ensures Payload([], None) == None
  {
  }

  lemma {:induction false} DropAddedBlanks(lines: seq<seq<Octet>>, blank: nat)
    requires lines != [] && lines[|lines| - 1] != []
    ensures DropEmpty(lines + seq(blank, _ => [])) == lines
  {
    var all := lines + seq(blank, _ => []);
    if blank == 0 {
      assert all == lines;
    } else {
      assert all[..|all| - 1] == lines + seq(blank - 1, _ => []);
      DropAddedBlanks(lines, blank - 1);
    }
  }

  lemma ArmorLinesArePlain(data: seq<Octet>, pgp: bool, headers: seq<seq<Octet>>, crc: Option<seq<Octet>>)
    requires AllHeaders(headers)
    ensures AllPlain(ArmorLines(data, pgp, headers, crc))
    ensures var lines := ArmorLines(data, pgp, headers, crc); lines != [] && lines[|lines| - 1] != []
  {
    LabelsArePlain(pgp);
    Base64.EncodedShape(data);
    ShapedIsPlain(Base64.Encode(data), Base64.PadCount(|data|));
    WrappedIsPlain(Base64.Encode(data));
    forall i | 0 <= i < |headers|
      ensures Plain(headers[i])
    {
      HeaderIsPlain(headers[i]);
    }
    if crc.Some? {
      Base64.EncodedShape(crc.value);
      ShapedIsPlain(Base64.Encode(crc.value), Base64.PadCount(|crc.value|));
      CrcLineIsPlain(crc.value);
    }
    hide Begin, End, IsHeader, Base64.Encode, CrcLine;
    PlainJoin(headers, data, pgp, crc);
  }

  lemma CrcLineIsPlain(crc: seq<Octet>)
    requires forall i :: 0 <= i < |Base64.Encode(crc)| ==> Base64.Encode(crc)[i] != LF && Base64.Encode(crc)[i] != CR
    ensures Plain(CrcLine(crc))
  {
    hide Base64.Encode;
  }

  lemma PlainAppend(a: seq<seq<Octet>>, b: seq<seq<Octet>>)
    requires AllPlain(a) && AllPlain(b)
    ensures AllPlain(a + b)
  {
  }

  lemma PlainJoin(headers: seq<seq<Octet>>, data: seq<Octet>, pgp: bool, crc: Option<seq<Octet>>)
    requires AllPlain(headers) && AllPlain(Wrap(Base64.Encode(data))) && Plain(Begin(pgp)) && Plain(End(pgp))
    requires crc.Some? ==> Plain(CrcLine(crc.value))
    ensures AllPlain(ArmorLines(data, pgp, headers, crc))
  {
    hide Begin, End, Base64.Encode, CrcLine;
    var payload := Wrap(Base64.Encode(data));
    var tail := if crc.None? then [] else [CrcLine(crc.value)];
    assert AllPlain([Begin(pgp)]) && AllPlain([End(pgp)]) && AllPlain([[]]) && AllPlain(tail);
    hide AllPlain, Plain, Wrap;
    PlainAppend(payload, tail);
    PlainAppend([[]], payload + tail);
    PlainAppend(headers, [[]] + (payload + tail));
    PlainAppend([Begin(pgp)], headers + ([[]] + (payload + tail)));
    PlainAppend([Begin(pgp)] + (headers + ([[]] + (payload + tail))), [End(pgp)]);
    PlainAppend([Begin(pgp)], payload);
    PlainAppend([Begin(pgp)] + payload, [End(pgp)]);
  }

  /**
   * Reading a printed message returns the data exactly when there is data and the
   * checksum, if one is printed, is the data's own; otherwise it is refused.
   */
  lemma UnarmorPrinted(data: seq<Octet>, pgp: bool, headers: seq<seq<Octet>>, crc: Option<seq<Octet>>, crlf: bool, blank: nat)
    requires AllHeaders(headers) && (crc.Some? ==> |crc.value| == 3)
    requires !pgp ==> crc.None?
    ensures Unarmor(Print(data, pgp, headers, crc, crlf, blank), pgp)
         == if data != [] && (crc.None? || ChecksumOf(data) == crc.value) then Some(data) else None
  {
    hide ArmorLines, UnarmorLines, Split, UnixEnds, Unlines, ChecksumOf, Plain;
    var lines := ArmorLines(data, pgp, headers, crc);
    var blanks: seq<seq<Octet>> := seq(blank, _ => []);
    ArmorLinesArePlain(data, pgp, headers, crc);
    EmptyIsPlain();
    PlainAppend(lines, blanks);
    SplitUnlines(lines + blanks, crlf);
    assert lines + blanks + [[]] == lines + seq(blank + 1, _ => []);
    DropAddedBlanks(lines, blank + 1);
    UnarmorPrintedLines(data, pgp, headers, crc, lines);
  }

  lemma EmptyIsPlain()
    ensures Plain([])
  {
  }

  lemma BitsAppend(a: seq<Octet>, b: seq<Octet>)
    ensures ToBits(a + b) == ToBits(a) + ToBits(b)
  {
  }

  lemma ThreeEqual(o: seq<bv8>, o': seq<bv8>)
    requires |o| == |o'| == 3
    requires [Number(o[0]), Number(o[1]), Number(o[2])] == [Number(o'[0]), Number(o'[1]), Number(o'[2])]
    ensures o == o'
  {
    hide Number;
    var n, n' := [Number(o[0]), Number(o[1]), Number(o[2])], [Number(o'[0]), Number(o'[1]), Number(o'[2])];
    assert n[0] == n'[0] && n[1] == n'[1] && n[2] == n'[2];
    NumberDiffers(o[0], o'[0]);
    NumberDiffers(o[1], o'[1]);
    NumberDiffers(o[2], o'[2]);
  }

  lemma ChecksumInjective(a: seq<Octet>, b: seq<Octet>)
    requires ChecksumOf(a) == ChecksumOf(b)
    ensures Crc24.Crc(ToBits(a)) == Crc24.Crc(ToBits(b))
  {
    hide Crc24.Fold, Crc24.Register, Crc24.Octets, Crc24.Crc, Crc24.Word, Number;
    var v, v' := Crc24.Crc(ToBits(a)), Crc24.Crc(ToBits(b));
    Crc24.CrcRegister(ToBits(a));
    Crc24.CrcRegister(ToBits(b));
    Crc24.WordOfOctets(v);
    Crc24.WordOfOctets(v');
    ThreeEqual(Crc24.Octets(v), Crc24.Octets(v'));
  }

  /** A message changed only within three consecutive octets is refused under the original's checksum. */
  lemma TamperedRefused(before: seq<Octet>, w: seq<Octet>, w': seq<Octet>, after: seq<Octet>,
                        headers: seq<seq<Octet>>, crlf: bool, blank: nat)
    requires |w| == |w'| <= 3 && w != w' && AllHeaders(headers)
    ensures var crc := Some(ChecksumOf(before + w + after));
            Unarmor(Print(before + w' + after, true, headers, crc, crlf, blank), true) == None
  {
    hide Unarmor, Print, ChecksumOf, AllHeaders, Crc24.Crc, Number, Bits;
    var a, b := before + w + after, before + w' + after;
    BitsAppend(before + w, after);
    BitsAppend(before, w);
    BitsAppend(before + w', after);
    BitsAppend(before, w');
    if ToBits(w) == ToBits(w') {
      forall i | 0 <= i < |w|
        ensures w[i] == w'[i]
      {
        assert ToBits(w)[i] == ToBits(w')[i];
        NumberOfBits(w[i]);
        NumberOfBits(w'[i]);
      }
      assert false;
    }
    Crc24.BurstDetected(ToBits(before), ToBits(w), ToBits(w'), ToBits(after));
    if ChecksumOf(a) == ChecksumOf(b) {
      ChecksumInjective(a, b);
    }
    UnarmorPrinted(b, true, headers, Some(ChecksumOf(a)), crlf, blank);
  }

  lemma PrintStarts(data: seq<Octet>, pgp: bool, headers: seq<seq<Octet>>, crc: Option<seq<Octet>>, crlf: bool, blank: nat)
    ensures Begin(pgp) <= Print(data, pgp, headers, crc, crlf, blank)
  {
    hide Begin;
    var lines := ArmorLines(data, pgp, headers, crc) + seq(blank, _ => []);
    assert lines[0] == Begin(pgp);
  }
}
