/** Which armored texts are accepted at all, line by line. */
module ArmorForm {
  import opened Wrappers
  import opened Octets
  import opened Lines
  import Base64
  import Crc24
  import opened Armor

  predicate NameChar(c: Octet) {
    65 <= c <= 90 || 97 <= c <= 122 || 48 <= c <= 57 || c == 45
  }

  /** A name that starts with a letter, a colon and a space, and printable text. */
  predicate HeaderOf(line: seq<Octet>, name: seq<Octet>, text: seq<Octet>) {
    && line == name + [58, 32] + text && name != [] && (65 <= name[0] <= 90 || 97 <= name[0] <= 122)
    && (forall i :: 0 <= i < |name| ==> NameChar(name[i]))
    && forall i :: 0 <= i < |text| ==> 32 <= text[i] <= 126
  }

  ghost predicate HeaderLine(line: seq<Octet>) {
    exists name: seq<Octet>, text: seq<Octet> :: HeaderOf(line, name, text)
  }

  lemma {:induction false} NameEnds(name: seq<Octet>, rest: seq<Octet>)
    requires (forall i :: 0 <= i < |name| ==> NameChar(name[i])) && rest != [] && rest[0] == 58
    ensures NameLength(name + rest) == |name|
    decreases |name|
  {
    if name == [] {
      assert name + rest == rest;
    } else {
      assert (name + rest)[1..] == name[1..] + rest;
      NameEnds(name[1..], rest);
    }
  }

  lemma HeaderTaken(line: seq<Octet>)
    requires IsHeader(line)
    ensures HeaderLine(line)
  {
    hide NameLength;
    var n := NameLength(line);
    NameIsPlain(line);
    var name, text := line[..n], line[n + 2..];
    assert line == name + [58, 32] + text;
    assert HeaderOf(line, name, text);
  }

  lemma HeaderFits(line: seq<Octet>, name: seq<Octet>, text: seq<Octet>)
    requires HeaderOf(line, name, text)
    ensures IsHeader(line)
  {
    hide NameLength;
    assert line == name + ([58, 32] + text);
    NameEnds(name, [58, 32] + text);
    assert line[|name| + 2..] == text;
  }

  lemma HeaderLineIff(line: seq<Octet>)
    ensures IsHeader(line) <==> HeaderLine(line)
  {
    hide IsHeader, HeaderOf;
    if IsHeader(line) { HeaderTaken(line); }
    forall name: seq<Octet>, text: seq<Octet> | HeaderOf(line, name, text) ensures IsHeader(line) {
      HeaderFits(line, name, text);
    }
  }

  function BeginLine(pgp: bool): seq<Octet> {
    Ascii(if pgp then "-----BEGIN PGP MESSAGE-----" else "-----BEGIN AGE ENCRYPTED FILE-----")
  }

  function EndLine(pgp: bool): seq<Octet> {
    Ascii(if pgp then "-----END PGP MESSAGE-----" else "-----END AGE ENCRYPTED FILE-----")
  }

  /** The block of header lines with its blank line. */
  function HeaderBlock(pgp: bool, headers: seq<seq<Octet>>): seq<seq<Octet>> {
    if pgp then headers + [[]] else []
  }

  /** An equals sign and the encoded checksum of the content. */
  function ChecksumLine(content: seq<Octet>): seq<Octet> {
    [61] + Base64.Encode(ChecksumOf(content))
  }

  /** Lines of one to 64 octets that together are the encoded content. */
  predicate PayloadLines(body: seq<seq<Octet>>, content: seq<Octet>) {
    body != [] && (forall i :: 0 <= i < |body| ==> 1 <= |body[i]| <= 64) && Concat(body) == Base64.Encode(content)
  }

  /** All of it: labels, for PGP a header block, the payload, and for PGP a checksum line unless it is left out. */
  ghost predicate ArmoredBy(lines: seq<seq<Octet>>, pgp: bool, content: seq<Octet>, headers: seq<seq<Octet>>, body: seq<seq<Octet>>, sum: bool) {
    && lines == [BeginLine(pgp)] + (HeaderBlock(pgp, headers) + (body + if sum then [ChecksumLine(content)] else [])) + [EndLine(pgp)]
    && (sum ==> pgp) && (forall i :: 0 <= i < |headers| ==> HeaderLine(headers[i]))
    && PayloadLines(body, content)
    && (pgp && !sum ==> body[|body| - 1][0] != 61)
  }

  ghost predicate Armored(lines: seq<seq<Octet>>, pgp: bool, content: seq<Octet>) {
    exists headers: seq<seq<Octet>>, body: seq<seq<Octet>>, sum: bool :: ArmoredBy(lines, pgp, content, headers, body, sum)
  }

  lemma LabelLines(pgp: bool)
    ensures Begin(pgp) == BeginLine(pgp) && End(pgp) == EndLine(pgp)
  {
  }

  lemma BitsOf(a: Octet, b: bv8)
    requires Number(b) == a
    ensures Bits(a) == b
  {
    hide Number, Bits;
    NumberOfBits(a);
    NumberDiffers(Bits(a), b);
  }

  lemma NineDigits()
    ensures Bits(49) == 0x31 && Bits(50) == 0x32 && Bits(51) == 0x33 && Bits(52) == 0x34 && Bits(53) == 0x35
    ensures Bits(54) == 0x36 && Bits(55) == 0x37 && Bits(56) == 0x38 && Bits(57) == 0x39
  {
    hide Bits;
    BitsOf(49, 0x31);
    BitsOf(50, 0x32);
    BitsOf(51, 0x33);
    BitsOf(52, 0x34);
    BitsOf(53, 0x35);
    BitsOf(54, 0x36);
    BitsOf(55, 0x37);
    BitsOf(56, 0x38);
    BitsOf(57, 0x39);
  }

  /** The check value of the nine digits, high octet first. */
  lemma DigitsChecksum()
    ensures ChecksumOf([49, 50, 51, 52, 53, 54, 55, 56, 57]) == [0x21, 0xCF, 0x02]
  {
    hide Bits, Crc24.Crc;
    NineDigits();
    var data: seq<Octet> := [49, 50, 51, 52, 53, 54, 55, 56, 57];
    assert ToBits(data) == [0x31, 0x32, 0x33, 0x34, 0x35, 0x36, 0x37, 0x38, 0x39];
    Crc24.CheckValue();
  }

  lemma PayloadIff(body: seq<seq<Octet>>, crc: Option<seq<Octet>>, content: seq<Octet>)
    ensures Payload(body, crc) == Some(content) <==> PayloadLines(body, content) && (crc.None? || crc.value == ChecksumOf(content))
  {
    Base64.ParseIff(Concat(body), true, content);
    hide ChecksumOf, Base64.Parse, Base64.Encode, Concat;
  }

  lemma {:induction false} SkippedHeaders(lines: seq<seq<Octet>>) returns (headers: seq<seq<Octet>>)
    requires SkipHeaders(lines).Some?
    ensures lines == headers + ([[]] + SkipHeaders(lines).value) && AllHeaders(headers)
    decreases |lines|
  {
    hide IsHeader;
    if lines[0] == [] {
      headers := [];
      assert lines == [] + ([[]] + lines[1..]);
    } else {
      var more := SkippedHeaders(lines[1..]);
      headers := [lines[0]] + more;
      assert lines == [lines[0]] + lines[1..];
    }
  }

  /** The body of a PGP message after its header block. */
  lemma BodyIff(rest: seq<seq<Octet>>, content: seq<Octet>)
    ensures PgpBody(rest) == Some(content) <==>
            || (PayloadLines(rest, content) && rest[|rest| - 1][0] != 61)
            || exists body: seq<seq<Octet>> :: PayloadLines(body, content) && rest == body + [ChecksumLine(content)]
  {
    hide ChecksumOf, Base64.Parse, Base64.Encode, Concat, Payload;
    var n := |rest|;
    PayloadIff(rest, None, content);
    if HasChecksum(rest) {
      var line := rest[n - 1];
      PayloadIff(rest[..n - 1], Some(ChecksumOf(content)), content);
      Base64.ParseIff(line[1..], true, ChecksumOf(content));
      assert line == [61] + line[1..];
      assert rest == rest[..n - 1] + [line];
      if PgpBody(rest) == Some(content) {
        var crc := Base64.Parse(line[1..], true).value;
        PayloadIff(rest[..n - 1], Some(crc), content);
      }
    }
    forall body: seq<seq<Octet>> | PayloadLines(body, content) && rest == body + [ChecksumLine(content)]
      ensures PgpBody(rest) == Some(content)
    {
      assert rest[..n - 1] == body && rest[n - 1] == ChecksumLine(content) && rest[n - 1][1..] == Base64.Encode(ChecksumOf(content));
    }
  }

  lemma LinesAccepted(lines: seq<seq<Octet>>, pgp: bool, content: seq<Octet>)
    requires UnarmorLines(lines, pgp) == Some(content)
    ensures Armored(lines, pgp, content)
  {
    hide Begin, End, BeginLine, EndLine, Payload, PgpBody, SkipHeaders, PayloadLines, IsHeader, HeaderLine, ChecksumLine;
    LabelLines(pgp);
    var n := |lines|;
    var inner := lines[1..n - 1];
    assert lines == [lines[0]] + inner + [lines[n - 1]];
    if pgp {
      var headers := SkippedHeaders(inner);
      forall i | 0 <= i < |headers| ensures HeaderLine(headers[i]) { HeaderLineIff(headers[i]); }
      var rest := SkipHeaders(inner).value;
      assert inner == HeaderBlock(pgp, headers) + rest;
      BodyIff(rest, content);
      if body :| PayloadLines(body, content) && rest == body + [ChecksumLine(content)] {
        assert inner == HeaderBlock(pgp, headers) + (body + [ChecksumLine(content)]);
        assert ArmoredBy(lines, pgp, content, headers, body, true);
      } else {
        assert inner == HeaderBlock(pgp, headers) + (rest + []);
        assert ArmoredBy(lines, pgp, content, headers, rest, false);
      }
    } else {
      PayloadIff(inner, None, content);
      assert inner == HeaderBlock(pgp, []) + (inner + []);
      assert ArmoredBy(lines, pgp, content, [], inner, false);
    }
  }

  lemma LinesAcceptable(lines: seq<seq<Octet>>, pgp: bool, content: seq<Octet>, headers: seq<seq<Octet>>, body: seq<seq<Octet>>, sum: bool)
    requires ArmoredBy(lines, pgp, content, headers, body, sum)
    ensures UnarmorLines(lines, pgp) == Some(content)
  {
    hide Begin, End, BeginLine, EndLine, Payload, PgpBody, SkipHeaders, IsHeader, HeaderLine, ChecksumLine, Base64.Encode, Concat;
    LabelLines(pgp);
    var rest := body + if sum then [ChecksumLine(content)] else [];
    var inner := HeaderBlock(pgp, headers) + rest;
    assert lines[1..|lines| - 1] == inner;
    if pgp {
      forall i | 0 <= i < |headers| ensures IsHeader(headers[i]) { HeaderLineIff(headers[i]); }
      assert inner == headers + ([[]] + rest);
      SkipPrintedHeaders(headers, rest);
      BodyIff(rest, content);
      if !sum { assert rest == body; }
    } else {
      assert inner == body;
      PayloadIff(inner, None, content);
    }
  }

  /**
   * An armored text is accepted exactly if its lines, LF or CRLF and without the blank ones at the
   * end, have that form; and it stands for the content that its payload encodes.
   */
  lemma UnarmorIff(data: seq<Octet>, pgp: bool, content: seq<Octet>)
    ensures Unarmor(data, pgp) == Some(content) <==> Armored(DropEmpty(Split(UnixEnds(data))), pgp, content)
  {
    var lines := DropEmpty(Split(UnixEnds(data)));
    hide UnarmorLines, DropEmpty, Split, UnixEnds, ArmoredBy;
    if Unarmor(data, pgp) == Some(content) { LinesAccepted(lines, pgp, content); }
    if Armored(lines, pgp, content) {
      var headers: seq<seq<Octet>>, body: seq<seq<Octet>>, sum: bool :| ArmoredBy(lines, pgp, content, headers, body, sum);
      LinesAcceptable(lines, pgp, content, headers, body, sum);
    }
  }
}
