/** The age v1 header (C2SP age specification, Header section) as the backup client checks it. */
module AgeHeader {
  import opened Wrappers
  import opened Octets
  import opened Lines
  import Base64
  import Armor
  import ArmorForm

  const MAX_STANZAS := 128
  const HEADER_LIMIT := 65536

  /** A recipient stanza: its argument line and its decoded body. */
  datatype Stanza = Stanza(line: seq<Octet>, body: seq<Octet>)

  /** A header taken apart, with the payload that follows it. */
  datatype Header = Header(stanzas: seq<Stanza>, mac: seq<Octet>, payload: seq<Octet>)

  function Magic(): seq<Octet> { Armor.Ascii("age-encryption.org/v1") + [LF] }

  const DASH: Octet := 45
  const MAC_MARK: seq<Octet> := [45, 45, 45, 32]
  const ARROW: seq<Octet> := [45, 62, 32]

  /** Visible arguments separated by single spaces after the arrow. */
  predicate IsStanzaLine(line: seq<Octet>) {
    && ARROW <= line
    && |line| > 3
    && (forall i :: 3 <= i < |line| ==> 32 <= line[i] <= 126)
    && line[3] != 32
    && line[|line| - 1] != 32
    && (forall i :: 4 <= i < |line| ==> line[i - 1] != 32 || line[i] != 32)
  }

  predicate Symbols(text: seq<Octet>) {
    forall i :: 0 <= i < |text| ==> Base64.IsSymbol(text[i])
  }

  // --------------------------------------------------------------------- parsing

  /** The first line, if its line feed is within the first `limit` octets, and the rest. */
  function TakeLine(data: seq<Octet>, limit: int): (r: Option<(seq<Octet>, seq<Octet>)>)
    ensures r.Some? ==> |r.value.0| + 1 + |r.value.1| == |data| && |r.value.0| < limit
  {
    if data == [] || limit <= 0 then None
    else if data[0] == LF then Some(([], data[1..]))
    else
      match TakeLine(data[1..], limit - 1)
      case None => None
      case Some((line, rest)) => Some(([data[0]] + line, rest))
  }

  /** Wrapped body text up to and including the first short line. */
  function TakeBody(data: seq<Octet>, limit: int): (r: Option<(seq<Octet>, seq<Octet>)>)
    ensures r.Some? ==> |r.value.1| < |data|
    decreases |data|
  {
    match TakeLine(data, limit)
    case None => None
    case Some((line, rest)) =>
      if |line| > 64 || !Symbols(line) then None
      else if |line| < 64 then Some((line, rest))
      else
        match TakeBody(rest, limit - 65)
        case None => None
        case Some((more, after)) => Some((line + more, after))
  }

  function ParseMac(line: seq<Octet>, rest: seq<Octet>, count: nat): Option<Header>
    requires MAC_MARK <= line
  {
    match Base64.Parse(line[4..], false)
    case None => None
    case Some(mac) =>
      if count > 0 && |mac| == 32 && |rest| >= 32 then Some(Header([], mac, rest)) else None
  }

  function ParseStanzas(data: seq<Octet>, limit: int, count: nat): Option<Header>
    decreases |data|
  {
    match TakeLine(data, limit)
    case None => None
    case Some((line, rest)) =>
      if MAC_MARK <= line then ParseMac(line, rest, count)
      else if !IsStanzaLine(line) || count + 1 > MAX_STANZAS then None
      else
        match TakeBody(rest, limit - |line| - 1)
        case None => None
        case Some((text, after)) =>
          match Base64.Parse(text, false)
          case None => None
          case Some(body) =>
            match ParseStanzas(after, limit - (|data| - |after|), count + 1)
            case None => None
            case Some(Header(stanzas, mac, payload)) => Some(Header([Stanza(line, body)] + stanzas, mac, payload))
  }

  function ParseHeader(data: seq<Octet>): Option<Header> {
    var magic := Magic();
    if magic <= data then ParseStanzas(data[|magic|..], HEADER_LIMIT - |magic|, 0) else None
  }

  predicate Container(data: seq<Octet>) {
    if Armor.Begin(false) <= data then
      match Armor.Unarmor(data, false)
      case None => false
      case Some(binary) => ParseHeader(binary).Some?
    else ParseHeader(data).Some?
  }

  // -------------------------------------------------- the loops of the source

  /** Python's find(b'\n', offset, min(len(data), 65536)). */
  method FindLine(data: seq<Octet>, offset: nat) returns (end: Option<nat>)
    requires offset <= |data|
    ensures end.None? <==> TakeLine(data[offset..], HEADER_LIMIT - offset).None?
    ensures end.Some? ==>
              && offset <= end.value < |data|
              && TakeLine(data[offset..], HEADER_LIMIT - offset) == Some((data[offset..end.value], data[end.value + 1..]))
  {
    var i := offset;
    EmptyPrefix(TakeLine(data[offset..], HEADER_LIMIT - offset));
    assert data[offset..offset] == [];
    while i < |data| && i < HEADER_LIMIT
      invariant offset <= i <= |data|
      invariant TakeLine(data[offset..], HEADER_LIMIT - offset)
             == Prefixed(data[offset..i], TakeLine(data[i..], HEADER_LIMIT - i))
    {
      StepLine(data, offset, i);
      if data[i] == LF { return Some(i); }
      i := i + 1;
    }
    return None;
  }

  function Prefixed(line: seq<Octet>, r: Option<(seq<Octet>, seq<Octet>)>): Option<(seq<Octet>, seq<Octet>)> {
    if r.None? then None else Some((line + r.value.0, r.value.1))
  }

  lemma StepLine(data: seq<Octet>, offset: nat, i: nat)
    requires offset <= i < |data| && i < HEADER_LIMIT
    ensures data[i] == LF ==> Prefixed(data[offset..i], TakeLine(data[i..], HEADER_LIMIT - i)) == Some((data[offset..i], data[i + 1..]))
    ensures data[i] != LF ==>
              Prefixed(data[offset..i], TakeLine(data[i..], HEADER_LIMIT - i))
              == Prefixed(data[offset..i + 1], TakeLine(data[i + 1..], HEADER_LIMIT - (i + 1)))
  {
    assert data[i..][0] == data[i] && data[i..][1..] == data[i + 1..];
    assert data[offset..i] + [] == data[offset..i];
    var r := TakeLine(data[i + 1..], HEADER_LIMIT - (i + 1));
    if r.Some? {
      assert data[offset..i] + ([data[i]] + r.value.0) == data[offset..i + 1] + r.value.0;
    }
  }

  /** The inner loop: wrapped lines are collected until a short one. */
  method BodyAt(data: seq<Octet>, start: nat) returns (r: Option<(seq<Octet>, nat)>)
    requires start <= |data|
    ensures r.None? <==> TakeBody(data[start..], HEADER_LIMIT - start).None?
    ensures r.Some? ==>
              && start < r.value.1 <= |data|
              && TakeBody(data[start..], HEADER_LIMIT - start) == Some((r.value.0, data[r.value.1..]))
  {
    var body: seq<Octet>, offset := [], start;
    var short := false;
    EmptyPrefix(TakeBody(data[start..], HEADER_LIMIT - start));
    while !short
      invariant start <= offset <= |data| && (short ==> start < offset)
      invariant !short ==>
                  TakeBody(data[start..], HEADER_LIMIT - start) == Prefixed(body, TakeBody(data[offset..], HEADER_LIMIT - offset))
      invariant short ==> TakeBody(data[start..], HEADER_LIMIT - start) == Some((body, data[offset..]))
      decreases !short, |data| - offset
    {
      var end := FindLine(data, offset);
      if end.None? { return None; }
      var line := data[offset..end.value];
      if |line| > 64 || !Symbols(line) { return None; }
      JoinPrefix(body, line, TakeBody(data[end.value + 1..], HEADER_LIMIT - (end.value + 1)));
      body := body + line;
      offset := end.value + 1;
      short := |line| < 64;
    }
    return Some((body, offset));
  }

  lemma EmptyPrefix(r: Option<(seq<Octet>, seq<Octet>)>)
    ensures Prefixed([], r) == r
  {
    if r.Some? {
      assert [] + r.value.0 == r.value.0;
    }
  }

  lemma JoinPrefix(a: seq<Octet>, b: seq<Octet>, r: Option<(seq<Octet>, seq<Octet>)>)
    ensures Prefixed(a, Prefixed(b, r)) == Prefixed(a + b, r)
  {
    if r.Some? {
      assert a + (b + r.value.0) == a + b + r.value.0;
    }
  }

  /** What one round of the outer loop decides, given the line it took. */
  lemma Round(data: seq<Octet>, limit: int, count: nat, line: seq<Octet>, rest: seq<Octet>)
    requires TakeLine(data, limit) == Some((line, rest))
    ensures MAC_MARK <= line ==> ParseStanzas(data, limit, count).Some? == ParseMac(line, rest, count).Some?
    ensures !(MAC_MARK <= line) ==>
              var body := TakeBody(rest, limit - |line| - 1);
              (ParseStanzas(data, limit, count).Some?
              <==> && IsStanzaLine(line)
                   && count + 1 <= MAX_STANZAS
                   && body.Some?
                   && Base64.Parse(body.value.0, false).Some?
                   && ParseStanzas(body.value.1, limit - (|data| - |body.value.1|), count + 1).Some?)
  {
    hide IsStanzaLine, Base64.Parse, TakeLine, TakeBody, ParseMac;
  }

  method BinaryContainer(data: seq<Octet>) returns (accepted: bool)
    ensures accepted == ParseHeader(data).Some?
  {
    hide IsStanzaLine, Base64.Parse, ParseStanzas, TakeLine, TakeBody, Magic;
    var magic := Magic();
    if !(magic <= data) { return false; }
    var offset, stanzas := |magic|, 0;
    while true
      invariant 0 <= offset <= |data| && 0 <= stanzas
      invariant ParseHeader(data).Some? == ParseStanzas(data[offset..], HEADER_LIMIT - offset, stanzas).Some?
      decreases |data| - offset
    {
      var end := FindLine(data, offset);
      if end.None? {
        NoLine(data[offset..], HEADER_LIMIT - offset, stanzas);
        return false;
      }
      var line := data[offset..end.value];
      Round(data[offset..], HEADER_LIMIT - offset, stanzas, line, data[end.value + 1..]);
      offset := end.value + 1;
      if MAC_MARK <= line {
        if stanzas == 0 { return false; }
        var mac := Base64.Parse(line[4..], false);
        return mac.Some? && |mac.value| == 32 && |data| - offset >= 32;
      }
      if !IsStanzaLine(line) { return false; }
      stanzas := stanzas + 1;
      if stanzas > MAX_STANZAS { return false; }
      var body := BodyAt(data, offset);
      if body.None? { return false; }
      offset := body.value.1;
      if Base64.Parse(body.value.0, false).None? { return false; }
    }
  }

  lemma NoLine(data: seq<Octet>, limit: int, count: nat)
    requires TakeLine(data, limit).None?
    ensures ParseStanzas(data, limit, count).None?
  {
  }

  method AgeContainer(data: seq<Octet>) returns (accepted: bool)
    ensures accepted == Container(data)
  {
    var binary := data;
    if Armor.Begin(false) <= data {
      var unarmored := Armor.Read(data, false);
      if unarmored.None? { return false; }
      binary := unarmored.value;
    }
    accepted := BinaryContainer(binary);
  }

  // -------------------------------------------------------------------- printing

  function PrintBody(text: seq<Octet>): seq<Octet> {
    if |text| < 64 then text + [LF] else text[..64] + [LF] + PrintBody(text[64..])
  }

  function Text(body: seq<Octet>): seq<Octet> { Base64.Canonical(body, false) }

  function PrintStanza(s: Stanza): seq<Octet> {
    s.line + [LF] + PrintBody(Text(s.body))
  }

  function PrintStanzas(stanzas: seq<Stanza>): seq<Octet> {
    if stanzas == [] then [] else PrintStanza(stanzas[0]) + PrintStanzas(stanzas[1..])
  }

  function MacLine(mac: seq<Octet>): seq<Octet> { MAC_MARK + Text(mac) }

  /** Everything before the payload. */
  function PrintHeader(h: Header): seq<Octet> {
    Magic() + (PrintStanzas(h.stanzas) + (MacLine(h.mac) + [LF]))
  }

  ghost predicate AllStanzas(stanzas: seq<Stanza>) {
    forall i :: 0 <= i < |stanzas| ==> IsStanzaLine(stanzas[i].line)
  }

  ghost predicate Valid(h: Header) {
    && AllStanzas(h.stanzas)
    && 1 <= |h.stanzas| <= MAX_STANZAS
    && |h.mac| == 32
    && |h.payload| >= 32
    && |PrintHeader(h)| <= HEADER_LIMIT
  }

  // ------------------------------------------------ parsing and printing agree

  lemma {:induction false} TakeLineIff(data: seq<Octet>, limit: int, line: seq<Octet>, rest: seq<Octet>)
    ensures TakeLine(data, limit) == Some((line, rest)) <==> LF !in line && data == line + [LF] + rest && |line| < limit
  {
    if data != [] && limit > 0 {
      if data[0] == LF {
        assert data == [] + [LF] + data[1..];
        if line != [] && data == line + [LF] + rest {
          assert line[0] == data[0];
        }
        if line == [] && data == line + [LF] + rest {
          assert data[1..] == rest;
        }
      } else {
        if line != [] {
          TakeLineIff(data[1..], limit - 1, line[1..], rest);
          ShiftLine(data, line, rest);
        } else {
          assert (line + [LF] + rest)[0] == LF;
        }
        if TakeLine(data, limit) == Some((line, rest)) {
          assert line[1..] == TakeLine(data[1..], limit - 1).value.0;
        }
        if LF !in line && data == line + [LF] + rest && line != [] && |line| < limit {
          assert [data[0]] + line[1..] == line;
        }
      }
    }
  }

  lemma ShiftLine(data: seq<Octet>, line: seq<Octet>, rest: seq<Octet>)
    requires data != [] && line != []
    ensures data == line + [LF] + rest <==> data[0] == line[0] && data[1..] == line[1..] + [LF] + rest
    ensures LF !in line <==> line[0] != LF && LF !in line[1..]
  {
    assert line == [line[0]] + line[1..];
    assert data == [data[0]] + data[1..];
    if data == line + [LF] + rest {
      assert data[1..] == line[1..] + [LF] + rest;
    }
    if data[0] == line[0] && data[1..] == line[1..] + [LF] + rest {
      assert data == line + [LF] + rest;
    }
  }

  lemma SymbolsHaveNoFeed(text: seq<Octet>)
    requires Symbols(text)
    ensures LF !in text
  {
  }

  lemma {:induction false} TakePrintedBody(text: seq<Octet>, rest: seq<Octet>, limit: int)
    requires Symbols(text) && |PrintBody(text)| <= limit
    ensures TakeBody(PrintBody(text) + rest, limit) == Some((text, rest))
    decreases |text|
  {
    hide TakeLine, Base64.IsSymbol;
    var data := PrintBody(text) + rest;
    SymbolsHaveNoFeed(text);
    if |text| < 64 {
      TakeLineIff(data, limit, text, rest);
    } else {
      var tail := PrintBody(text[64..]) + rest;
      assert data == text[..64] + [LF] + tail;
      TakeLineIff(data, limit, text[..64], tail);
      TakePrintedBody(text[64..], rest, limit - 65);
      assert text == text[..64] + text[64..];
    }
  }

  lemma {:induction false} TakenBodyIsPrinted(data: seq<Octet>, limit: int)
    requires TakeBody(data, limit).Some?
    ensures var (text, rest) := TakeBody(data, limit).value;
            Symbols(text) && data == PrintBody(text) + rest && |PrintBody(text)| <= limit
    decreases |data|
  {
    hide TakeLine, Base64.IsSymbol;
    var (line, rest) := TakeLine(data, limit).value;
    TakeLineIff(data, limit, line, rest);
    if |line| == 64 {
      TakenBodyIsPrinted(rest, limit - 65);
      var (more, after) := TakeBody(rest, limit - 65).value;
      assert (line + more)[..64] == line && (line + more)[64..] == more;
      assert data == line + [LF] + (PrintBody(more) + after);
    }
  }

  lemma TextIsSymbols(body: seq<Octet>)
    ensures Symbols(Text(body))
  {
    Base64.EncodedShape(body);
    Base64.StripThenPad(Base64.Encode(body), Base64.PadCount(|body|));
    hide Base64.Encode, Base64.Strip, Base64.IsSymbol;
  }

  lemma MacLineParses(mac: seq<Octet>, rest: seq<Octet>, count: nat)
    requires |mac| == 32 && |rest| >= 32 && count > 0
    ensures MAC_MARK <= MacLine(mac) && LF !in MacLine(mac)
    ensures ParseMac(MacLine(mac), rest, count) == Some(Header([], mac, rest))
  {
    TextIsSymbols(mac);
    SymbolsHaveNoFeed(Text(mac));
    Base64.ParseIff(Text(mac), false, mac);
    hide Base64.Parse, Text;
    assert MacLine(mac)[4..] == Text(mac);
  }

  lemma StanzaLineIsPlain(line: seq<Octet>)
    requires IsStanzaLine(line)
    ensures LF !in line && !(MAC_MARK <= line)
  {
    assert line[..3] == ARROW;
    assert line[1] == ARROW[1];
  }

  /** One printed stanza is consumed whole. */
  lemma ParsePrintedStanza(s: Stanza, tail: seq<Octet>, limit: int, count: nat)
    requires IsStanzaLine(s.line) && count < MAX_STANZAS && |PrintStanza(s)| <= limit
    ensures ParseStanzas(PrintStanza(s) + tail, limit, count)
         == match ParseStanzas(tail, limit - |PrintStanza(s)|, count + 1)
            case None => None
            case Some(h) => Some(Header([s] + h.stanzas, h.mac, h.payload))
  {
    hide TakeLine, TakeBody, IsStanzaLine, Text, PrintBody, Base64.Parse;
    var data, text := PrintStanza(s) + tail, Text(s.body);
    StanzaLineIsPlain(s.line);
    assert data == s.line + [LF] + (PrintBody(text) + tail);
    TakeLineIff(data, limit, s.line, PrintBody(text) + tail);
    TextIsSymbols(s.body);
    TakePrintedBody(text, tail, limit - |s.line| - 1);
    Parsed(s.body);
  }

  lemma Parsed(body: seq<Octet>)
    ensures Base64.Parse(Text(body), false) == Some(body)
  {
    Base64.ParseIff(Text(body), false, body);
  }

  lemma {:induction false} ParsePrintedStanzas(stanzas: seq<Stanza>, mac: seq<Octet>, payload: seq<Octet>, limit: int, count: nat)
    requires AllStanzas(stanzas) && |mac| == 32 && |payload| >= 32
    requires 0 < count + |stanzas| <= MAX_STANZAS
    requires |PrintStanzas(stanzas) + (MacLine(mac) + [LF])| <= limit
    ensures ParseStanzas(PrintStanzas(stanzas) + (MacLine(mac) + [LF]) + payload, limit, count)
         == Some(Header(stanzas, mac, payload))
  {
    hide ParseStanzas, PrintStanza, MacLine, IsStanzaLine;
    var footer := MacLine(mac) + [LF];
    var data := PrintStanzas(stanzas) + footer + payload;
    if stanzas == [] {
      assert data == MacLine(mac) + [LF] + payload;
      ParsePrintedMac(mac, payload, limit, count);
    } else {
      var tail := PrintStanzas(stanzas[1..]) + footer + payload;
      assert data == PrintStanza(stanzas[0]) + tail;
      ParsePrintedStanza(stanzas[0], tail, limit, count);
      ParsePrintedStanzas(stanzas[1..], mac, payload, limit - |PrintStanza(stanzas[0])|, count + 1);
      assert stanzas == [stanzas[0]] + stanzas[1..];
    }
  }

  lemma ParsePrintedMac(mac: seq<Octet>, payload: seq<Octet>, limit: int, count: nat)
    requires |mac| == 32 && |payload| >= 32 && count > 0 && |MacLine(mac)| < limit
    ensures ParseStanzas(MacLine(mac) + [LF] + payload, limit, count) == Some(Header([], mac, payload))
  {
    hide TakeLine, MacLine, ParseMac;
    MacLineParses(mac, payload, count);
    TakeLineIff(MacLine(mac) + [LF] + payload, limit, MacLine(mac), payload);
  }

  lemma MacIsPrinted(line: seq<Octet>, rest: seq<Octet>, count: nat)
    requires MAC_MARK <= line && ParseMac(line, rest, count).Some?
    ensures var h := ParseMac(line, rest, count).value;
            h.stanzas == [] && |h.mac| == 32 && |rest| >= 32 && h.payload == rest && count > 0 && line == MacLine(h.mac)
  {
    var mac := Base64.Parse(line[4..], false).value;
    Base64.ParseIff(line[4..], false, mac);
    hide Base64.Parse;
    assert line == MAC_MARK + line[4..];
  }

  /** One accepted stanza is a printed stanza. */
  lemma StanzaIsPrinted(data: seq<Octet>, limit: int, count: nat) returns (s: Stanza, tail: seq<Octet>)
    requires ParseStanzas(data, limit, count).Some? && !(MAC_MARK <= TakeLine(data, limit).value.0)
    ensures IsStanzaLine(s.line) && count < MAX_STANZAS && |PrintStanza(s)| <= limit && |tail| < |data|
    ensures data == PrintStanza(s) + tail && ParseStanzas(tail, limit - |PrintStanza(s)|, count + 1).Some?
    ensures var h := ParseStanzas(tail, limit - |PrintStanza(s)|, count + 1).value;
            ParseStanzas(data, limit, count).value == Header([s] + h.stanzas, h.mac, h.payload)
  {
    hide TakeLine, TakeBody, IsStanzaLine, PrintBody, Base64.Parse;
    var (line, rest) := TakeLine(data, limit).value;
    TakeLineIff(data, limit, line, rest);
    TakenBodyIsPrinted(rest, limit - |line| - 1);
    var (text, after) := TakeBody(rest, limit - |line| - 1).value;
    var body := Base64.Parse(text, false).value;
    Base64.ParseIff(text, false, body);
    s, tail := Stanza(line, body), after;
    assert data == line + [LF] + (PrintBody(text) + after);
    assert PrintStanza(s) == line + [LF] + PrintBody(text);
    assert |data| - |after| == |PrintStanza(s)|;
  }

  lemma {:induction false} StanzasArePrinted(data: seq<Octet>, limit: int, count: nat)
    requires ParseStanzas(data, limit, count).Some? && count <= MAX_STANZAS
    ensures var h := ParseStanzas(data, limit, count).value;
            && AllStanzas(h.stanzas) && |h.mac| == 32 && |h.payload| >= 32
            && 0 < count + |h.stanzas| <= MAX_STANZAS
            && data == PrintStanzas(h.stanzas) + (MacLine(h.mac) + [LF]) + h.payload
            && |PrintStanzas(h.stanzas) + (MacLine(h.mac) + [LF])| <= limit
    decreases |data|
  {
    hide TakeLine, TakeBody, IsStanzaLine, PrintStanza, MacLine, Base64.Parse, ParseMac;
    var (line, rest) := TakeLine(data, limit).value;
    if MAC_MARK <= line {
      TakeLineIff(data, limit, line, rest);
      MacIsPrinted(line, rest, count);
    } else {
      var s, tail := StanzaIsPrinted(data, limit, count);
      hide ParseStanzas;
      StanzasArePrinted(tail, limit - |PrintStanza(s)|, count + 1);
      var h := ParseStanzas(tail, limit - |PrintStanza(s)|, count + 1).value;
      var stanzas := [s] + h.stanzas;
      assert stanzas[1..] == h.stanzas;
      assert data == PrintStanzas(stanzas) + (MacLine(h.mac) + [LF]) + h.payload;
    }
  }

  /** The header is accepted exactly when it is a printed valid header, and it is taken apart uniquely. */
  lemma HeaderIff(data: seq<Octet>, h: Header)
    ensures ParseHeader(data) == Some(h) <==> Valid(h) && data == PrintHeader(h) + h.payload
  {
    hide ParseStanzas, Magic, IsStanzaLine, MacLine, PrintStanzas;
    var magic := Magic();
    var middle := PrintStanzas(h.stanzas) + (MacLine(h.mac) + [LF]);
    if ParseHeader(data) == Some(h) {
      StanzasArePrinted(data[|magic|..], HEADER_LIMIT - |magic|, 0);
      assert data == magic + data[|magic|..];
    }
    if Valid(h) && data == PrintHeader(h) + h.payload {
      assert data[|magic|..] == middle + h.payload;
      ParsePrintedStanzas(h.stanzas, h.mac, h.payload, HEADER_LIMIT - |magic|, 0);
    }
  }

  lemma BeginIsNotMagic(h: Header)
    ensures !(Armor.Begin(false) <= PrintHeader(h) + h.payload)
  {
    var data := PrintHeader(h) + h.payload;
    assert data[0] == Magic()[0] == 97;
    assert Armor.Begin(false)[0] == DASH;
  }

  /** Binary or armored in 64 columns, every valid header with its payload is recognised. */
  lemma PrintedContainer(h: Header, crlf: bool, blank: nat)
    requires Valid(h)
    ensures Container(PrintHeader(h) + h.payload)
    ensures Container(Armor.Print(PrintHeader(h) + h.payload, false, [], None, crlf, blank))
  {
    var data := PrintHeader(h) + h.payload;
    HeaderIff(data, h);
    BeginIsNotMagic(h);
    Armor.UnarmorPrinted(data, false, [], None, crlf, blank);
    Armor.PrintStarts(data, false, [], None, crlf, blank);
    hide Armor.Unarmor, Armor.Print, ParseHeader, PrintHeader, Armor.Begin;
  }

  // ------------------------------------------- what is accepted, spelled out

  /** Arguments with one space between each two. */
  function Spaced(args: seq<seq<Octet>>): seq<Octet>
    requires args != []
  {
    if |args| == 1 then args[0] else args[0] + [32] + Spaced(args[1..])
  }

  predicate Visible(arg: seq<Octet>) {
    arg != [] && forall i :: 0 <= i < |arg| ==> 33 <= arg[i] <= 126
  }

  /** No space at either end, and no two together. */
  predicate Single(text: seq<Octet>) {
    && text != [] && (forall i :: 0 <= i < |text| ==> 32 <= text[i] <= 126) && text[0] != 32 && text[|text| - 1] != 32
    && forall i :: 1 <= i < |text| ==> text[i - 1] != 32 || text[i] != 32
  }

  lemma {:induction false} SpacedSingle(args: seq<seq<Octet>>)
    requires args != [] && forall arg <- args :: Visible(arg)
    ensures Single(Spaced(args))
    decreases |args|
  {
    assert args[0] in args;
    if |args| > 1 {
      var rest := Spaced(args[1..]);
      assert forall arg <- args[1..] :: arg in args;
      SpacedSingle(args[1..]);
      var text := args[0] + [32] + rest;
      var n := |args[0]|;
      forall i | 0 <= i < |text| ensures 32 <= text[i] <= 126 && (i > 0 ==> text[i - 1] != 32 || text[i] != 32) {
        if i < n {
          assert text[i] == args[0][i];
        } else if i > n {
          assert text[i] == rest[i - n - 1];
          if i > n + 1 { assert text[i - 1] == rest[i - n - 2]; }
        } else {
          assert text[i - 1] == args[0][n - 1];
        }
      }
      assert text[|text| - 1] == rest[|rest| - 1];
    }
  }

  /** Where the first word ends. */
  function WordEnd(text: seq<Octet>): (n: nat)
    ensures n <= |text| && (forall i :: 0 <= i < n ==> text[i] != 32) && (n < |text| ==> text[n] == 32)
  {
    if text == [] || text[0] == 32 then 0 else 1 + WordEnd(text[1..])
  }

  lemma SingleEnds(text: seq<Octet>)
    requires Single(text)
    ensures text != [] && text[0] != 32 && text[|text| - 1] != 32
  {
  }

  lemma WordThere(text: seq<Octet>)
    requires text != [] && text[0] != 32
    ensures WordEnd(text) > 0
  {
  }

  lemma AtSpace(text: seq<Octet>, n: nat)
    requires n < |text| && text[n] == 32
    ensures text == text[..n] + [32] + text[n + 1..]
  {
  }

  lemma RestSingle(text: seq<Octet>, n: nat)
    requires Single(text) && n + 1 < |text| && text[n] == 32
    ensures Single(text[n + 1..])
  {
    var rest := text[n + 1..];
    assert rest[0] == text[n + 1] && rest[|rest| - 1] == text[|text| - 1];
    forall i | 0 <= i < |rest| ensures 32 <= rest[i] <= 126 && (i > 0 ==> rest[i - 1] != 32 || rest[i] != 32) {
      assert rest[i] == text[n + 1 + i];
      if i > 0 { assert rest[i - 1] == text[n + i]; }
    }
  }

  lemma WordVisible(text: seq<Octet>, n: nat)
    requires Single(text) && 0 < n <= |text| && forall i :: 0 <= i < n ==> text[i] != 32
    ensures Visible(text[..n])
  {
  }

  /** After the first word and its space the text is single-spaced again. */
  lemma AfterWord(text: seq<Octet>)
    requires Single(text) && WordEnd(text) < |text|
    ensures var n := WordEnd(text);
            && Visible(text[..n]) && n + 1 < |text| && Single(text[n + 1..])
            && text == text[..n] + [32] + text[n + 1..]
  {
    hide Single, Visible, WordEnd;
    SingleEnds(text);
    WordThere(text);
    RestSingle(text, WordEnd(text));
    WordVisible(text, WordEnd(text));
    AtSpace(text, WordEnd(text));
  }

  lemma {:induction false} SingleSpaced(text: seq<Octet>) returns (args: seq<seq<Octet>>)
    requires Single(text)
    ensures args != [] && (forall i :: 0 <= i < |args| ==> Visible(args[i])) && Spaced(args) == text
    decreases |text|
  {
    var n := WordEnd(text);
    if n == |text| {
      args := [text];
    } else {
      AfterWord(text);
      hide Single, Visible, WordEnd;
      var more := SingleSpaced(text[n + 1..]);
      args := [text[..n]] + more;
      assert args[1..] == more;
    }
  }

  ghost predicate ArgumentLine(line: seq<Octet>) {
    exists args: seq<seq<Octet>> :: args != [] && (forall arg <- args :: Visible(arg)) && line == [45, 62, 32] + Spaced(args)
  }

  /** A stanza line is the arrow and one or more visible arguments with single spaces between them. */
  lemma StanzaLineIff(line: seq<Octet>)
    ensures IsStanzaLine(line) <==> ArgumentLine(line)
  {
    if IsStanzaLine(line) {
      var text := line[3..];
      assert forall i :: 0 <= i < |text| ==> text[i] == line[3 + i];
      var args := SingleSpaced(text);
      assert line == [45, 62, 32] + Spaced(args);
    }
    forall args: seq<seq<Octet>> | args != [] && (forall arg <- args :: Visible(arg)) && line == [45, 62, 32] + Spaced(args)
      ensures IsStanzaLine(line)
    {
      SpacedSingle(args);
      var text := Spaced(args);
      assert forall i :: 3 <= i < |line| ==> line[i] == text[i - 3];
    }
  }

  /**
   * The accepted data is the printed header of one to 128 stanzas with such lines and a MAC of 32
   * octets, within the first 65536 octets, and at least 32 octets of payload.
   */
  ghost predicate HeaderOf(data: seq<Octet>, h: Header) {
    && 1 <= |h.stanzas| <= 128 && |h.mac| == 32 && |h.payload| >= 32 && |PrintHeader(h)| <= 65536
    && (forall i :: 0 <= i < |h.stanzas| ==> ArgumentLine(h.stanzas[i].line))
    && data == PrintHeader(h) + h.payload
  }

  lemma HeaderForm(data: seq<Octet>, h: Header)
    ensures ParseHeader(data) == Some(h) <==> HeaderOf(data, h)
  {
    HeaderIff(data, h);
    forall i | 0 <= i < |h.stanzas| ensures IsStanzaLine(h.stanzas[i].line) <==> ArgumentLine(h.stanzas[i].line) {
      StanzaLineIff(h.stanzas[i].line);
    }
    hide ParseHeader, IsStanzaLine, PrintHeader, ArgumentLine;
  }

  /** The first line, and the marks before a stanza and the MAC. */
  lemma HeaderMarks(h: Header)
    ensures Armor.Ascii("age-encryption.org/v1\n") <= PrintHeader(h)
    ensures MacLine(h.mac) == Armor.Ascii("--- ") + Base64.Canonical(h.mac, false)
  {
    assert "age-encryption.org/v1\n" == "age-encryption.org/v1" + "\n";
    assert Armor.Ascii("age-encryption.org/v1\n") == Armor.Ascii("age-encryption.org/v1") + [LF];
    assert Armor.Ascii("--- ") == [45, 45, 45, 32];
  }

  lemma OneMoreLine(line: seq<Octet>, more: seq<seq<Octet>>)
    ensures Unlines([line] + more, false) == line + [10] + Unlines(more, false)
    ensures Concat([line] + more) == line + Concat(more)
  {
    assert ([line] + more)[1..] == more;
  }

  /** A stanza body stands in full lines of 64 octets and one line that is shorter, maybe empty. */
  lemma {:induction false} BodyColumns(text: seq<Octet>) returns (full: seq<seq<Octet>>, last: seq<Octet>)
    ensures PrintBody(text) == Unlines(full, false) + last + [10] && Concat(full) + last == text
    ensures (forall i :: 0 <= i < |full| ==> |full[i]| == 64) && |last| < 64
    decreases |text|
  {
    if |text| < 64 {
      full, last := [], text;
    } else {
      hide Unlines, Concat;
      var more;
      more, last := BodyColumns(text[64..]);
      full := [text[..64]] + more;
      OneMoreLine(text[..64], more);
      assert text == text[..64] + text[64..];
      assert text == text[..64] + (Concat(more) + last);
      assert PrintBody(text) == text[..64] + [10] + PrintBody(text[64..]);
    }
  }

  ghost predicate Message(data: seq<Octet>) {
    exists h: Header :: HeaderOf(data, h)
  }

  lemma ParsedIff(data: seq<Octet>)
    ensures ParseHeader(data).Some? <==> Message(data)
  {
    hide ParseHeader, HeaderOf;
    forall h: Header ensures ParseHeader(data) == Some(h) <==> HeaderOf(data, h) { HeaderForm(data, h); }
    if ParseHeader(data).Some? { assert HeaderOf(data, ParseHeader(data).value); }
  }

  /** What is accepted, with neither reader named: such a header and payload, or lines that armor them. */
  lemma AcceptedIff(data: seq<Octet>)
    ensures Container(data) <==>
            if ArmorForm.BeginLine(false) <= data then
              exists content: seq<Octet> ::
                ArmorForm.Armored(Armor.DropEmpty(Split(UnixEnds(data))), false, content) && Message(content)
            else Message(data)
  {
    hide Armor.Unarmor, ParseHeader, Message, ArmorForm.Armored, Armor.Begin, ArmorForm.BeginLine;
    ArmorForm.LabelLines(false);
    ParsedIff(data);
    forall content: seq<Octet> ensures Armor.Unarmor(data, false) == Some(content) <==>
        ArmorForm.Armored(Armor.DropEmpty(Split(UnixEnds(data))), false, content)
    {
      ArmorForm.UnarmorIff(data, false, content);
    }
    if Armor.Unarmor(data, false).Some? { ParsedIff(Armor.Unarmor(data, false).value); }
  }
}
