/**
 * Canonical base64 (section 3.5 of RFC 4648): a strict decoder followed by a
 * re-encoding check, with and without padding.
 */
module Base64 {
  import opened Wrappers
  import opened Octets

  const PAD: Octet := 61
  type Sextet = v: int | 0 <= v < 64

  function Symbol(v: Sextet): Octet {
    if v < 26 then 65 + v
    else if v < 52 then 71 + v
    else if v < 62 then v - 4
    else if v == 62 then 43
    else 47
  }

  predicate IsSymbol(c: Octet) {
    65 <= c <= 90 || 97 <= c <= 122 || 48 <= c <= 57 || c == 43 || c == 47
  }

  function SextetOf(c: Octet): Sextet
    requires IsSymbol(c)
  {
    if 65 <= c <= 90 then c - 65
    else if 97 <= c <= 122 then c - 71
    else if 48 <= c <= 57 then c + 4
    else if c == 43 then 62
    else 63
  }

  lemma SymbolRoundTrip(v: Sextet)
    ensures IsSymbol(Symbol(v)) && SextetOf(Symbol(v)) == v
  {
  }

  // ------------------------------------------------------------ groups of three

  function First(a: Octet): Sextet { a / 4 }
  function Second(a: Octet, b: Octet): Sextet { a % 4 * 16 + b / 16 }
  function Third(b: Octet, c: Octet): Sextet { b % 16 * 4 + c / 64 }
  function Fourth(c: Octet): Sextet { c % 64 }

  function Join1(v0: Sextet, v1: Sextet): Octet { v0 * 4 + v1 / 16 }
  function Join2(v1: Sextet, v2: Sextet): Octet { v1 % 16 * 16 + v2 / 4 }
  function Join3(v2: Sextet, v3: Sextet): Octet { v2 % 4 * 64 + v3 }

  lemma SplitFirst(a: Octet, b: Octet)
    ensures Join1(First(a), Second(a, b)) == a && Second(a, b) % 16 == b / 16
  {
  }

  lemma SplitSecond(a: Octet, b: Octet, c: Octet)
    ensures Join2(Second(a, b), Third(b, c)) == b && Third(b, c) % 4 == c / 64
  {
    SplitFirst(a, b);
    assert Third(b, c) / 4 == b % 16;
  }

  lemma SplitThird(b: Octet, c: Octet)
    ensures Join3(Third(b, c), Fourth(c)) == c
  {
    assert Third(b, c) % 4 == c / 64;
  }

  function EncodeThree(a: Octet, b: Octet, c: Octet): seq<Octet> {
    [Symbol(First(a)), Symbol(Second(a, b)), Symbol(Third(b, c)), Symbol(Fourth(c))]
  }

  function EncodeTwo(a: Octet, b: Octet): seq<Octet> {
    [Symbol(First(a)), Symbol(Second(a, b)), Symbol(Third(b, 0)), PAD]
  }

  function EncodeOne(a: Octet): seq<Octet> {
    [Symbol(First(a)), Symbol(Second(a, 0)), PAD, PAD]
  }

  /** The standard encoder, with padding. */
  function Encode(data: seq<Octet>): seq<Octet> {
    if data == [] then []
    else if |data| == 1 then EncodeOne(data[0])
    else if |data| == 2 then EncodeTwo(data[0], data[1])
    else EncodeThree(data[0], data[1], data[2]) + Encode(data[3..])
  }

  /** Octets of one group, or nothing. Unused low bits of a short group are ignored here. */
  function DecodeGroup(s: seq<Octet>): Option<seq<Octet>>
    requires |s| == 4
  {
    if !IsSymbol(s[0]) || !IsSymbol(s[1]) then None
    else
      var v0, v1 := SextetOf(s[0]), SextetOf(s[1]);
      if s[2] == PAD then
        if s[3] == PAD then Some([Join1(v0, v1)]) else None
      else if !IsSymbol(s[2]) then None
      else
        var v2 := SextetOf(s[2]);
        if s[3] == PAD then Some([Join1(v0, v1), Join2(v1, v2)])
        else if !IsSymbol(s[3]) then None
        else Some([Join1(v0, v1), Join2(v1, v2), Join3(v2, SextetOf(s[3]))])
  }

  /** Strict decoding: whole groups only, and padding only in the last one. */
  function Decode(s: seq<Octet>): Option<seq<Octet>> {
    if s == [] then Some([])
    else if |s| < 4 then None
    else
      match DecodeGroup(s[..4])
      case None => None
      case Some(group) =>
        if |s| == 4 then Some(group)
        else if |group| < 3 then None
        else
          match Decode(s[4..])
          case None => None
          case Some(more) => Some(group + more)
  }

  lemma SymbolIsNotPad(v: Sextet)
    ensures Symbol(v) != PAD && !IsSymbol(PAD)
  {
  }

  lemma DecodeSymbols(v0: Sextet, v1: Sextet, v2: Sextet, v3: Sextet)
    ensures var s0, s1, s2, s3 := Symbol(v0), Symbol(v1), Symbol(v2), Symbol(v3);
            && DecodeGroup([s0, s1, s2, s3]) == Some([Join1(v0, v1), Join2(v1, v2), Join3(v2, v3)])
            && DecodeGroup([s0, s1, s2, PAD]) == Some([Join1(v0, v1), Join2(v1, v2)])
            && DecodeGroup([s0, s1, PAD, PAD]) == Some([Join1(v0, v1)])
  {
    SymbolRoundTrip(v0);
    SymbolRoundTrip(v1);
    SymbolRoundTrip(v2);
    SymbolRoundTrip(v3);
    SymbolIsNotPad(v2);
    SymbolIsNotPad(v3);
    hide Symbol, SextetOf, IsSymbol, Join1, Join2, Join3;
  }

  lemma DecodeThree(a: Octet, b: Octet, c: Octet)
    ensures DecodeGroup(EncodeThree(a, b, c)) == Some([a, b, c])
  {
    hide First, Second, Third, Fourth, Symbol, Join1, Join2, Join3, DecodeGroup;
    DecodeSymbols(First(a), Second(a, b), Third(b, c), Fourth(c));
    SplitFirst(a, b);
    SplitSecond(a, b, c);
    SplitThird(b, c);
  }

  lemma DecodeTwo(a: Octet, b: Octet)
    ensures DecodeGroup(EncodeTwo(a, b)) == Some([a, b])
  {
    hide First, Second, Third, Symbol, Join1, Join2, Join3, DecodeGroup;
    DecodeSymbols(First(a), Second(a, b), Third(b, 0), 0);
    SplitFirst(a, b);
    SplitSecond(a, b, 0);
  }

  lemma DecodeOne(a: Octet)
    ensures DecodeGroup(EncodeOne(a)) == Some([a])
  {
    hide First, Second, Symbol, Join1, Join2, Join3, DecodeGroup;
    DecodeSymbols(First(a), Second(a, 0), 0, 0);
    SplitFirst(a, 0);
  }

  lemma {:induction false} DecodeEncode(data: seq<Octet>)
    ensures Decode(Encode(data)) == Some(data)
  {
    hide EncodeOne, EncodeTwo, EncodeThree, DecodeGroup;
    GroupLengths(data);
    if |data| == 1 {
      DecodeOne(data[0]);
      var s := Encode(data);
      assert s[..4] == s && data == [data[0]];
    } else if |data| == 2 {
      DecodeTwo(data[0], data[1]);
      var s := Encode(data);
      assert s[..4] == s && data == [data[0], data[1]];
    } else if |data| > 2 {
      DecodeThree(data[0], data[1], data[2]);
      DecodeEncode(data[3..]);
      var s := EncodeThree(data[0], data[1], data[2]) + Encode(data[3..]);
      assert s[..4] == EncodeThree(data[0], data[1], data[2]) && s[4..] == Encode(data[3..]);
      assert data == [data[0], data[1], data[2]] + data[3..];
      if |data| == 3 {
        assert data[3..] == [] && Encode([]) == [] && s == s[..4];
        assert data == [data[0], data[1], data[2]];
      }
    }
  }

  lemma GroupLengths(data: seq<Octet>)
    ensures |data| == 1 ==> |EncodeOne(data[0])| == 4
    ensures |data| == 2 ==> |EncodeTwo(data[0], data[1])| == 4
    ensures |data| > 2 ==> |EncodeThree(data[0], data[1], data[2])| == 4
  {
  }

  // --------------------------------------------------------- the canonical check

  function Pads(n: nat): (p: seq<Octet>)
    ensures |p| == n
  {
    if n == 0 then [] else [PAD] + Pads(n - 1)
  }

  /** Python's rstrip(b'='). */
  function Strip(s: seq<Octet>): seq<Octet> {
    if s != [] && s[|s| - 1] == PAD then Strip(s[..|s| - 1]) else s
  }

  /** Missing padding up to a whole group: -len % 4. */
  function Missing(n: nat): nat {
    (4 - n % 4) % 4
  }

  function Canonical(data: seq<Octet>, padded: bool): seq<Octet> {
    if padded then Encode(data) else Strip(Encode(data))
  }

  /** The source's `_base64`: decode strictly, then require that re-encoding gives the same text. */
  function Parse(value: seq<Octet>, padded: bool): Option<seq<Octet>> {
    match Decode(if padded then value else value + Pads(Missing(|value|)))
    case None => None
    case Some(decoded) => if Canonical(decoded, padded) == value then Some(decoded) else None
  }

  /** How many pads the encoding of n octets ends with. */
  function PadCount(n: nat): nat {
    if n % 3 == 0 then 0 else 3 - n % 3
  }

  /** Whole groups of symbols, of which the last k positions are pads. */
  predicate Shaped(s: seq<Octet>, k: nat) {
    && |s| % 4 == 0
    && k <= |s|
    && (forall i :: 0 <= i < |s| - k ==> IsSymbol(s[i]))
    && (forall i :: |s| - k <= i < |s| ==> s[i] == PAD)
  }

  lemma ShapedOne(a: Octet)
    ensures Shaped(EncodeOne(a), 2)
  {
    SymbolRoundTrip(First(a));
    SymbolRoundTrip(Second(a, 0));
    hide First, Second, Symbol, IsSymbol;
  }

  lemma ShapedTwo(a: Octet, b: Octet)
    ensures Shaped(EncodeTwo(a, b), 1)
  {
    SymbolRoundTrip(First(a));
    SymbolRoundTrip(Second(a, b));
    SymbolRoundTrip(Third(b, 0));
    hide First, Second, Third, Symbol, IsSymbol;
  }

  /** Encoded text is symbols followed by at most two pads, in whole groups. */
  lemma {:induction false} EncodedShape(data: seq<Octet>)
    ensures Shaped(Encode(data), PadCount(|data|))
    ensures data != [] ==> |Encode(data)| >= 4
  {
    hide EncodeThree, EncodeTwo, EncodeOne, IsSymbol;
    if |data| == 1 {
      ShapedOne(data[0]);
    } else if |data| == 2 {
      ShapedTwo(data[0], data[1]);
    } else if data != [] {
      ThreeSymbols(data[0], data[1], data[2]);
      EncodedShape(data[3..]);
      assert PadCount(|data|) == PadCount(|data[3..]|);
    }
  }

  lemma ThreeSymbols(a: Octet, b: Octet, c: Octet)
    ensures Shaped(EncodeThree(a, b, c), 0) && |EncodeThree(a, b, c)| == 4
  {
    SymbolRoundTrip(First(a));
    SymbolRoundTrip(Second(a, b));
    SymbolRoundTrip(Third(b, c));
    SymbolRoundTrip(Fourth(c));
  }

  lemma {:induction false} StripPads(s: seq<Octet>, n: nat)
    requires s == [] || s[|s| - 1] != PAD
    ensures Strip(s + Pads(n)) == s
  {
    if n == 0 {
      assert s + Pads(0) == s;
    } else {
      var t := s + Pads(n);
      PadsEnd(n);
      assert t[..|t| - 1] == s + Pads(n - 1);
      StripPads(s, n - 1);
    }
  }

  lemma {:induction false} PadsEnd(n: nat)
    ensures forall i :: 0 <= i < n ==> Pads(n)[i] == PAD
    ensures n > 0 ==> Pads(n)[..n - 1] == Pads(n - 1)
  {
    if n > 0 {
      PadsEnd(n - 1);
    }
  }

  lemma MissingPads(n: nat, k: nat)
    requires n % 4 == 0 && k <= 2 && k <= n
    ensures Missing(n - k) == k
  {
  }

  /** Restoring the missing padding of stripped text gives the padded text back. */
  lemma StripThenPad(text: seq<Octet>, k: nat)
    requires Shaped(text, k) && k <= 2
    ensures var v := Strip(text); v + Pads(Missing(|v|)) == text && forall x :: x in v ==> IsSymbol(x)
  {
    SymbolIsNotPad(0);
    MissingPads(|text|, k);
    hide IsSymbol, Strip, Missing;
    var v := text[..|text| - k];
    PadsEnd(k);
    hide Pads;
    assert text == v + Pads(k);
    StripPads(v, k);
  }

  /** The parser accepts exactly the encoder's image and returns what was encoded. */
  lemma ParseIff(value: seq<Octet>, padded: bool, data: seq<Octet>)
    ensures Parse(value, padded) == Some(data) <==> value == Canonical(data, padded)
  {
    if value == Canonical(data, padded) {
      DecodeEncode(data);
      EncodedShape(data);
      hide Encode, Decode, Strip;
      StripThenPad(Encode(data), PadCount(|data|));
    }
  }

  /** The ends of the alphabet's ranges (section 4 of RFC 4648). */
  lemma AlphabetEnds()
    ensures Symbol(0) == 'A' as int && Symbol(25) == 'Z' as int && Symbol(26) == 'a' as int && Symbol(51) == 'z' as int
    ensures Symbol(52) == '0' as int && Symbol(61) == '9' as int && Symbol(62) == '+' as int && Symbol(63) == '/' as int
  {
  }

  /** "fooba" is "Zm9vYmE=". */
  lemma KnownEncoding()
    ensures Encode([102, 111, 111, 98, 97]) == [90, 109, 57, 118, 89, 109, 69, 61]
  {
    assert [102, 111, 111, 98, 97][3..] == [98, 97];
  }
}
