/** Splitting octets into lines and joining them again. */
module Lines {
  import opened Octets

  const LF: Octet := 10
  const CR: Octet := 13

  /** A line: no line feed and no carriage return. */
  predicate Plain(line: seq<Octet>) { LF !in line && CR !in line }

  ghost predicate AllPlain(lines: seq<seq<Octet>>) {
    forall i :: 0 <= i < |lines| ==> Plain(lines[i])
  }

  /** Python's replace(b'\r\n', b'\n'). */
  function UnixEnds(data: seq<Octet>): seq<Octet> {
    if data == [] then []
    else if |data| >= 2 && data[0] == CR && data[1] == LF then [LF] + UnixEnds(data[2..])
    else [data[0]] + UnixEnds(data[1..])
  }

  /** Python's split(b'\n'). */
  function Split(data: seq<Octet>): (lines: seq<seq<Octet>>)
    ensures lines != []
  {
    if data == [] then [[]]
    else if data[0] == LF then [[]] + Split(data[1..])
    else
      var rest := Split(data[1..]);
      [[data[0]] + rest[0]] + rest[1..]
  }

  function Eol(crlf: bool): seq<Octet> {
    if crlf then [CR, LF] else [LF]
  }

  /** Every line followed by its end. */
  function Unlines(lines: seq<seq<Octet>>, crlf: bool): seq<Octet> {
    if lines == [] then [] else lines[0] + Eol(crlf) + Unlines(lines[1..], crlf)
  }

  lemma UnixEnd(crlf: bool, rest: seq<Octet>)
    ensures UnixEnds(Eol(crlf) + rest) == [LF] + UnixEnds(rest)
  {
    if crlf {
      assert ([CR, LF] + rest)[2..] == rest;
    } else {
      assert ([LF] + rest)[1..] == rest;
    }
  }

  lemma UnixFirst(c: Octet, data: seq<Octet>)
    requires c != CR
    ensures UnixEnds([c] + data) == [c] + UnixEnds(data)
  {
    assert ([c] + data)[1..] == data;
  }

  lemma {:induction false} UnixLine(line: seq<Octet>, crlf: bool, rest: seq<Octet>)
    requires Plain(line)
    ensures UnixEnds(line + Eol(crlf) + rest) == line + [LF] + UnixEnds(rest)
  {
    hide UnixEnds, Eol;
    if line == [] {
      UnixEnd(crlf, rest);
      assert line + Eol(crlf) + rest == Eol(crlf) + rest;
    } else {
      assert line[0] in line && Plain(line[1..]);
      UnixLine(line[1..], crlf, rest);
      UnixFirst(line[0], line[1..] + Eol(crlf) + rest);
      assert line + Eol(crlf) + rest == [line[0]] + (line[1..] + Eol(crlf) + rest);
      assert line + [LF] + UnixEnds(rest) == [line[0]] + (line[1..] + [LF] + UnixEnds(rest));
    }
  }

  lemma {:induction false} SplitLine(line: seq<Octet>, rest: seq<Octet>)
    requires LF !in line
    ensures Split(line + [LF] + rest) == [line] + Split(rest)
  {
    var data := line + [LF] + rest;
    if line == [] {
      assert data[1..] == rest;
    } else {
      assert line[0] in line;
      assert data[1..] == line[1..] + [LF] + rest;
      SplitLine(line[1..], rest);
      assert [line[0]] + line[1..] == line;
    }
  }

  /** Reading back printed lines, with either line end, gives the lines and one empty remainder. */
  lemma {:induction false} SplitUnlines(lines: seq<seq<Octet>>, crlf: bool)
    requires AllPlain(lines)
    ensures Split(UnixEnds(Unlines(lines, crlf))) == lines + [[]]
  {
    if lines != [] {
      hide UnixEnds, Split, Plain, Eol;
      var rest := Unlines(lines[1..], crlf);
      UnixLine(lines[0], crlf, rest);
      PlainHasNoFeed(lines[0]);
      SplitLine(lines[0], UnixEnds(rest));
      SplitUnlines(lines[1..], crlf);
    }
  }

  lemma PlainHasNoFeed(line: seq<Octet>)
    requires Plain(line)
    ensures LF !in line
  {
  }

  /** All lines run together, Python's b''.join. */
  function Concat(lines: seq<seq<Octet>>): seq<Octet> {
    if lines == [] then [] else lines[0] + Concat(lines[1..])
  }

  /** Text in lines of exactly 64 columns and one last line that may be shorter. */
  function Wrap(text: seq<Octet>): (lines: seq<seq<Octet>>)
    ensures Concat(lines) == text
    ensures forall i :: 0 <= i < |lines| ==> 0 < |lines[i]| <= 64
    ensures text != [] ==> lines != [] && lines[0] == text[..if |text| <= 64 then |text| else 64]
  {
    if text == [] then []
    else if |text| <= 64 then
      assert [text][1..] == [];
      [text]
    else
      var rest := Wrap(text[64..]);
      assert ([text[..64]] + rest)[1..] == rest;
      [text[..64]] + rest
  }

  lemma {:induction false} WrappedIn(text: seq<Octet>, i: nat, j: nat)
    requires i < |Wrap(text)| && j < |Wrap(text)[i]|
    ensures Wrap(text)[i][j] in text
  {
    if i > 0 {
      WrappedIn(text[64..], i - 1, j);
    }
  }
}
