/**
 * What the checksum means: the register after a message is the unique remainder of
 * message * x^24 + initial * x^n modulo the generator, as polynomials over GF(2).
 * Polynomials are coefficient sequences, highest power first.
 */
module Crc24Remainder {
  import opened Crc24

  type Bits = seq<bool>

  function Zeros(n: nat): (z: Bits)
    ensures |z| == n && forall i :: 0 <= i < n ==> !z[i]
  {
    seq(n, _ => false)
  }

  /** Addition of polynomials with as many coefficients each. */
  function Add(a: Bits, b: Bits): (c: Bits)
    requires |a| == |b|
    ensures |c| == |a| && forall i :: 0 <= i < |a| ==> c[i] == (a[i] != b[i])
  {
    seq(|a|, i requires 0 <= i < |a| => a[i] != b[i])
  }

  /** The low 24 coefficients of the generator 0x1864CFB; its leading coefficient is 1. */
  const GENERATOR_TAIL: Bits :=
    [true, false, false, false] + [false, true, true, false] + [false, true, false, false]
    + [true, true, false, false] + [true, true, true, true] + [true, false, true, true]

  const GENERATOR: Bits := [true] + GENERATOR_TAIL

  /** The initial register 0xB704CE. */
  const INITIAL: Bits :=
    [true, false, true, true] + [false, true, true, true] + [false, false, false, false]
    + [false, true, false, false] + [true, true, false, false] + [true, true, true, false]

  function Times(b: bool): (p: Bits)
    ensures |p| == 25
  {
    if b then GENERATOR else Zeros(25)
  }

  /** Schoolbook product of a quotient with the generator. */
  function Product(q: Bits): (p: Bits)
    ensures |p| == |q| + 24
  {
    if q == [] then Zeros(24)
    else
      var n := |q| - 1;
      Add(Product(q[..n]) + [false], Zeros(n) + Times(q[n]))
  }

  /** message * x^24 + initial * x^n == q * generator + r, with r of degree below 24. */
  predicate Divides(message: Bits, q: Bits, r: Bits) {
    var n := |message|;
    && |q| == n
    && |r| == 24
    && Add(message + Zeros(24), INITIAL + Zeros(n)) == Add(Product(q), Zeros(n) + r)
  }

  ghost predicate IsRemainder(message: Bits, r: Bits) {
    exists q :: Divides(message, q, r)
  }

  // ------------------------------------------------------------- bit by bit

  /** One bit into a register of 24 coefficients. */
  function BitStep(r: Bits, b: bool): (r': Bits)
    requires |r| == 24
    ensures |r'| == 24
  {
    Add(r[1..] + [false], if r[0] != b then GENERATOR_TAIL else Zeros(24))
  }

  function Run(r: Bits, message: Bits): (r': Bits)
    requires |r| == 24
    ensures |r'| == 24
  {
    if message == [] then r
    else BitStep(Run(r, message[..|message| - 1]), message[|message| - 1])
  }

  /** The quotient that the same division leaves behind. */
  function Quotient(message: Bits): (q: Bits)
    ensures |q| == |message|
  {
    if message == [] then []
    else
      var n := |message| - 1;
      Quotient(message[..n]) + [Run(INITIAL, message[..n])[0] != message[n]]
  }

  /** One register step, coefficient by coefficient. */
  lemma StepOut(r: Bits, b: bool)
    requires |r| == 24
    ensures var times, r' := Times(r[0] != b), BitStep(r, b);
            && times[0] == (r[0] != b)
            && (forall i :: 1 <= i < 24 ==> r[i] == (times[i] != r'[i - 1]))
            && times[24] == r'[23]
  {
  }

  /** The two sides of the division after one more bit. */
  function NextLeft(m: Bits, b: bool): (s: Bits)
    ensures |s| == |m| + 25
  {
    Add(m + [b] + Zeros(24), INITIAL + Zeros(|m| + 1))
  }

  function NextRight(n: nat, b: bool, p: Bits, r: Bits): (s: Bits)
    requires |r| == 24 && |p| == n + 24
    ensures |s| == n + 25
  {
    Add(Add(p + [false], Zeros(n) + Times(r[0] != b)), Zeros(n + 1) + BitStep(r, b))
  }

  lemma LeftAt(m: Bits, b: bool, i: nat)
    requires i < |m| + 25
    ensures NextLeft(m, b)[i] == ((if i < |m| then m[i] else if i == |m| then b else false) != (if i < 24 then INITIAL[i] else false))
  {
  }

  lemma RightAt(n: nat, b: bool, p: Bits, r: Bits, i: nat)
    requires |r| == 24 && |p| == n + 24 && i < n + 25
    ensures NextRight(n, b, p, r)[i] ==
            (((if i < n + 24 then p[i] else false) != (if i < n then false else Times(r[0] != b)[i - n]))
             != (if i <= n then false else BitStep(r, b)[i - n - 1]))
  {
    hide Times, BitStep;
  }

  lemma BeforeAt(m: Bits, p: Bits, r: Bits, i: nat)
    requires |r| == 24 && |p| == |m| + 24 && i < |m| + 24
    requires Add(m + Zeros(24), INITIAL + Zeros(|m|)) == Add(p, Zeros(|m|) + r)
    ensures ((if i < |m| then m[i] else false) != (if i < 24 then INITIAL[i] else false))
            == (p[i] != (if i < |m| then false else r[i - |m|]))
  {
    assert Add(m + Zeros(24), INITIAL + Zeros(|m|))[i] == Add(p, Zeros(|m|) + r)[i];
  }

  /** Coefficient i of both sides of the division, one power of x further. */
  lemma SumAt(m: Bits, b: bool, p: Bits, r: Bits, i: nat)
    requires |r| == 24 && |p| == |m| + 24 && i < |m| + 25
    requires Add(m + Zeros(24), INITIAL + Zeros(|m|)) == Add(p, Zeros(|m|) + r)
    ensures NextLeft(m, b)[i] == NextRight(|m|, b, p, r)[i]
  {
    StepOut(r, b);
    LeftAt(m, b, i);
    RightAt(|m|, b, p, r, i);
    if i < |m| + 24 { BeforeAt(m, p, r, i); }
    hide Times, BitStep, Add, NextLeft, NextRight;
  }

  /** Both sides of the division, one power of x further. */
  lemma SumStep(m: Bits, b: bool, p: Bits, r: Bits)
    requires |r| == 24 && |p| == |m| + 24
    requires Add(m + Zeros(24), INITIAL + Zeros(|m|)) == Add(p, Zeros(|m|) + r)
    ensures var n := |m|;
            Add(m + [b] + Zeros(24), INITIAL + Zeros(n + 1))
            == Add(Add(p + [false], Zeros(n) + Times(r[0] != b)), Zeros(n + 1) + BitStep(r, b))
  {
    forall i | 0 <= i < |m| + 25
      ensures NextLeft(m, b)[i] == NextRight(|m|, b, p, r)[i]
    {
      SumAt(m, b, p, r, i);
    }
    assert NextLeft(m, b) == NextRight(|m|, b, p, r);
    hide Times, BitStep, Add, Zeros;
  }

  lemma DivideStep(m: Bits, b: bool, q: Bits, r: Bits)
    requires Divides(m, q, r)
    ensures Divides(m + [b], q + [r[0] != b], BitStep(r, b))
  {
    SumStep(m, b, Product(q), r);
    hide BitStep, Times;
    var q' := q + [r[0] != b];
    assert q'[..|m|] == q;
  }

  lemma DivideNothing()
    ensures Divides([], [], INITIAL)
  {
    assert Add([] + Zeros(24), INITIAL + Zeros(0)) == Add(Product([]), Zeros(0) + INITIAL);
  }

  lemma {:induction false} RunDivides(message: Bits)
    ensures Divides(message, Quotient(message), Run(INITIAL, message))
  {
    hide Divides, BitStep;
    if message == [] {
      DivideNothing();
    } else {
      var n := |message| - 1;
      RunDivides(message[..n]);
      DivideStep(message[..n], message[n], Quotient(message[..n]), Run(INITIAL, message[..n]));
      assert message == message[..n] + [message[n]];
    }
  }

  // ---------------------------------------------------------------- uniqueness

  lemma SumLead(p: Bits, t: Bits)
    requires |p| >= 24 && |t| == 25
    ensures var n := |p| - 24;
            var sum := Add(p + [false], Zeros(n) + t);
            && (forall i :: 0 <= i < n ==> sum[i] == p[i])
            && sum[n] == (p[n] != t[0])
  {
  }

  lemma TimesLead(b: bool)
    ensures Times(b)[0] == b
  {
  }

  ghost predicate Agree(a: Bits, b: Bits, n: nat) {
    n <= |a| && n <= |b| && forall i :: 0 <= i < n ==> a[i] == b[i]
  }

  lemma ProductAppend(s: Bits, b: bool)
    ensures Product(s + [b]) == Add(Product(s) + [false], Zeros(|s|) + Times(b))
  {
    assert (s + [b])[..|s|] == s;
  }

  lemma LastCoefficient(s: Bits, b: bool)
    ensures Agree(Product(s + [b]), Product(s), |s|)
    ensures Product(s + [b])[|s|] == (Product(s)[|s|] != b)
  {
    ProductAppend(s, b);
    TimesLead(b);
    hide Product, Times;
    SumLead(Product(s), Times(b));
  }

  lemma AgreeChain(a: Bits, a': Bits, b: Bits, b': Bits, n: nat)
    requires Agree(a, a', n) && Agree(b, b', n) && Agree(a, b, n + 1)
    ensures Agree(a', b', n) && a[n] == b[n]
  {
    forall i | 0 <= i < n
      ensures a'[i] == b'[i]
    {
      assert a[i] == a'[i] && b[i] == b'[i];
    }
  }

  lemma LeadStep(s: Bits, b: bool, s': Bits, b': bool)
    requires |s| == |s'| && Agree(Product(s + [b]), Product(s' + [b']), |s| + 1)
    ensures Agree(Product(s), Product(s'), |s|)
    ensures s == s' ==> b == b'
  {
    hide Product, Agree;
    LastCoefficient(s, b);
    LastCoefficient(s', b');
    AgreeChain(Product(s + [b]), Product(s), Product(s' + [b']), Product(s'), |s|);
  }

  /** The generator's leading coefficient is 1, so a product's first coefficients fix the quotient. */
  lemma {:induction false} ProductDetermines(q: Bits, q': Bits)
    requires |q| == |q'| && Agree(Product(q), Product(q'), |q|)
    ensures q == q'
  {
    hide Product, Agree;
    if q != [] {
      var n := |q| - 1;
      var s, s' := q[..n], q'[..n];
      assert q == s + [q[n]] && q' == s' + [q'[n]];
      LeadStep(s, q[n], s', q'[n]);
      ProductDetermines(s, s');
    }
  }

  lemma RemainderUnique(message: Bits, q: Bits, r: Bits, q': Bits, r': Bits)
    requires Divides(message, q, r) && Divides(message, q', r')
    ensures q == q' && r == r'
  {
    var n := |message|;
    var a, b := Add(Product(q), Zeros(n) + r), Add(Product(q'), Zeros(n) + r');
    assert a == b;
    forall i | 0 <= i < n
      ensures Product(q)[i] == Product(q')[i]
    {
      assert a[i] == b[i];
    }
    ProductDetermines(q, q');
    forall i | 0 <= i < 24
      ensures r[i] == r'[i]
    {
      assert a[n + i] == b[n + i];
    }
  }

  // --------------------------------------- from coefficients to the source's register

  function Bit(b: bool): bv32 { if b then 1 else 0 }

  function TopBit(b: bool): bv32 { if b then 0x800000 else 0 }

  /** The number whose binary digits, highest first, are the coefficients. */
  function Value(s: Bits): bv32 {
    if s == [] then 0 else Xor(Double(Value(s[..|s| - 1])), Bit(s[|s| - 1]))
  }

  function PowBit(n: nat): bv32 { if n == 0 then 1 else Double(PowBit(n - 1)) }

  function Mask(n: nat): bv32 { if n == 0 then 0xFFFFFFFF else Double(Mask(n - 1)) }

  /** v has no bit of m. */
  predicate Clear(v: bv32, m: bv32) { v & m == 0 }

  /** m has every bit of m'. */
  predicate Contains(m: bv32, m': bv32) { And(m, m') == m' }

  function And(a: bv32, b: bv32): bv32 { a & b }

  lemma DoubleAnd(a: bv32, b: bv32)
    ensures And(Double(a), Double(b)) == Double(And(a, b))
  {
  }


  lemma ClearEven(v: bv32, m: bv32)
    requires Clear(v, m)
    ensures Clear(v << 1, m << 1)
  {
    assert (v << 1) & (m << 1) == (v & m) << 1;
  }

  lemma ClearOdd(v: bv32, m: bv32)
    requires Clear(v << 1, m << 1)
    ensures Clear((v << 1) ^ 1, m << 1)
  {
    assert ((v << 1) ^ 1) & (m << 1) == (v << 1) & (m << 1);
  }

  lemma MaskStep(v: bv32, m: bv32, b: bool)
    requires Clear(v, m)
    ensures Clear(Xor(Double(v), Bit(b)), Double(m))
  {
    hide Clear;
    ClearEven(v, m);
    ClearOdd(v, m);
    if !b {
      ZeroDoubles(Double(v));
    }
  }

  lemma ClearAll()
    ensures Clear(0, 0xFFFFFFFF)
  {
  }

  lemma {:induction false} ValueBelow(s: Bits)
    ensures Clear(Value(s), Mask(|s|))
  {
    hide Xor, Double, Bit, Clear;
    if s == [] {
      ClearAll();
    } else {
      var n := |s| - 1;
      ValueBelow(s[..n]);
      MaskStep(Value(s[..n]), Mask(n), s[n]);
    }
  }

  lemma ValueAppend(s: Bits, b: bool)
    ensures Value(s + [b]) == Xor(Double(Value(s)), Bit(b))
  {
    assert (s + [b])[..|s|] == s;
  }

  lemma XorFour(a: bv32, b: bv32, c: bv32, d: bv32)
    ensures Xor(Xor(a, b), Xor(c, d)) == Xor(Xor(a, c), Xor(b, d))
  {
    hide Xor;
    XorAssociates(a, b, Xor(c, d));
    XorMoves(c, b, d);
    XorAssociates(b, c, d);
    XorCommutes(b, c);
    XorAssociates(c, b, d);
    XorAssociates(a, c, Xor(b, d));
  }

  lemma BitAdd(a: bool, b: bool)
    ensures Bit(a != b) == Xor(Bit(a), Bit(b)) && TopBit(a != b) == Xor(TopBit(a), TopBit(b))
  {
  }

  lemma {:induction false} ValueAdd(s: Bits, t: Bits)
    requires |s| == |t|
    ensures Value(Add(s, t)) == Xor(Value(s), Value(t))
  {
    if s == [] {
      assert Add(s, t) == [];
    } else {
      hide Xor, Double, Bit;
      var n := |s| - 1;
      var s', t' := s[..n], t[..n];
      ValueAdd(s', t');
      assert Add(s, t) == Add(s', t') + [s[n] != t[n]];
      ValueAppend(Add(s', t'), s[n] != t[n]);
      DoubleXor(Value(s'), Value(t'));
      BitAdd(s[n], t[n]);
      XorFour(Double(Value(s')), Double(Value(t')), Bit(s[n]), Bit(t[n]));
    }
  }

  lemma ZeroDoubles(v: bv32)
    ensures Xor(v, 0) == v && Xor(0, v) == v && Double(0) == 0
  {
  }

  lemma {:induction false} ValueZeros(n: nat)
    ensures Value(Zeros(n)) == 0
  {
    if n > 0 {
      hide Xor, Double;
      ValueZeros(n - 1);
      assert Zeros(n) == Zeros(n - 1) + [false];
      ValueAppend(Zeros(n - 1), false);
      ZeroDoubles(0);
    }
  }

  lemma BitDoubles(b: bool, p: bv32)
    ensures Double(if b then p else 0) == if b then Double(p) else 0
  {
  }

  lemma {:induction false} ValueCons(b: bool, s: Bits)
    ensures Value([b] + s) == Xor(if b then PowBit(|s|) else 0, Value(s))
  {
    if s == [] {
      assert [b] + s == [] + [b];
      ValueAppend([], b);
      ZeroDoubles(Bit(b));
    } else {
      hide Xor, Double, Bit;
      var n := |s| - 1;
      var s' := s[..n];
      ValueCons(b, s');
      assert [b] + s == ([b] + s') + [s[n]];
      ValueAppend([b] + s', s[n]);
      var lead := if b then PowBit(n) else 0;
      DoubleXor(lead, Value(s'));
      BitDoubles(b, PowBit(n));
      XorAssociates(Double(lead), Double(Value(s')), Bit(s[n]));
    }
  }

  lemma TopPower()
    ensures PowBit(23) == 0x800000 && Mask(23) == 0xFF800000
  {
    assert PowBit(8) == 0x100 && Mask(8) == 0xFFFFFF00;
    assert PowBit(16) == 0x10000 && Mask(16) == 0xFFFF0000;
  }

  /** One bit into the source's register: the bit meets the top coefficient, then a shift. */
  function BitShift(v: bv32, b: bool): bv32 {
    Shift(Xor(v, TopBit(b)))
  }

  lemma ShiftTop(b: bool)
    ensures Shift(TopBit(b)) == if b then 0x864CFB else 0
  {
  }

  lemma Nibble(s: Bits, a: bool, b: bool, c: bool, d: bool)
    ensures Value(s + [a, b, c, d])
         == Xor(Double(Xor(Double(Xor(Double(Xor(Double(Value(s)), Bit(a))), Bit(b))), Bit(c))), Bit(d))
  {
    hide Xor, Double, Bit;
    assert s + [a, b, c, d] == s + [a] + [b] + [c] + [d];
    ValueAppend(s, a);
    ValueAppend(s + [a], b);
    ValueAppend(s + [a] + [b], c);
    ValueAppend(s + [a] + [b] + [c], d);
  }

  lemma GeneratorValue()
    ensures Value(GENERATOR_TAIL) == 0x864CFB
  {
    var s0: Bits := [];
    var s1 := s0 + [true, false, false, false];
    var s2 := s1 + [false, true, true, false];
    var s3 := s2 + [false, true, false, false];
    var s4 := s3 + [true, true, false, false];
    var s5 := s4 + [true, true, true, true];
    Nibble(s0, true, false, false, false);
    assert Value(s1) == 0x8;
    Nibble(s1, false, true, true, false);
    assert Value(s2) == 0x86;
    Nibble(s2, false, true, false, false);
    assert Value(s3) == 0x864;
    Nibble(s3, true, true, false, false);
    assert Value(s4) == 0x864C;
    Nibble(s4, true, true, true, true);
    assert Value(s5) == 0x864CF;
    Nibble(s5, true, false, true, true);
    assert GENERATOR_TAIL == s5 + [true, false, true, true];
  }

  lemma InitialValue()
    ensures Value(INITIAL) == INIT
  {
    var s0: Bits := [];
    var s1 := s0 + [true, false, true, true];
    var s2 := s1 + [false, true, true, true];
    var s3 := s2 + [false, false, false, false];
    var s4 := s3 + [false, true, false, false];
    var s5 := s4 + [true, true, false, false];
    Nibble(s0, true, false, true, true);
    assert Value(s1) == 0xB;
    Nibble(s1, false, true, true, true);
    assert Value(s2) == 0xB7;
    Nibble(s2, false, false, false, false);
    assert Value(s3) == 0xB70;
    Nibble(s3, false, true, false, false);
    assert Value(s4) == 0xB704;
    Nibble(s4, true, true, false, false);
    assert Value(s5) == 0xB704C;
    Nibble(s5, true, true, true, false);
    assert INITIAL == s5 + [true, true, true, false];
  }

  lemma ValueStep(r: Bits, b: bool)
    requires |r| == 24
    ensures Value(BitStep(r, b)) == BitShift(Value(r), b)
  {
    hide Xor, Double, Bit, Shift, TopBit, Clear;
    var rest, top := r[1..], r[0] != b;
    var v, lead := Value(rest), TopBit(top);
    assert r == [r[0]] + rest;
    ValueCons(r[0], rest);
    TopPower();
    TopBitIs(r[0]);
    XorMoves(TopBit(r[0]), v, TopBit(b));
    BitAdd(r[0], b);
    ShiftLinear(lead, v);
    ShiftTop(top);
    ValueBelow(rest);
    ClearShift(v);
    ValueAdd(rest + [false], if top then GENERATOR_TAIL else Zeros(24));
    ValueAppend(rest, false);
    BitOfFalse();
    ZeroDoubles(Double(v));
    GeneratorValue();
    ValueZeros(24);
    XorCommutes(Double(v), Shift(lead));
    assert Value(r) == Xor(TopBit(r[0]), v);
    assert Xor(Value(r), TopBit(b)) == Xor(lead, v);
  }

  lemma ClearShift(v: bv32)
    requires Clear(v, 0xFF800000)
    ensures Shift(v) == Double(v)
  {
  }

  lemma TopBitIs(b: bool)
    ensures TopBit(b) == if b then 0x800000 else 0
  {
  }

  lemma BitOfFalse()
    ensures Bit(false) == 0
  {
  }

  function FoldBits(v: bv32, message: Bits): bv32 {
    if message == [] then v
    else BitShift(FoldBits(v, message[..|message| - 1]), message[|message| - 1])
  }

  lemma {:induction false} ValueRun(r: Bits, message: Bits)
    requires |r| == 24
    ensures Value(Run(r, message)) == FoldBits(Value(r), message)
  {
    if message != [] {
      hide BitShift, BitStep, Value;
      var n := |message| - 1;
      ValueRun(r, message[..n]);
      ValueStep(Run(r, message[..n]), message[n]);
    }
  }

  // ------------------------------------------------------------ octets and bits

  /** The first n bits of an octet, highest first. */
  function OctetBits(x: bv8, n: nat): (s: Bits)
    ensures |s| == n
    decreases n
  {
    if n == 0 then [] else [x & 0x80 != 0] + OctetBits(x << 1, n - 1)
  }

  function MessageBits(data: seq<bv8>): (s: Bits)
    ensures |s| == 8 * |data|
  {
    if data == [] then [] else OctetBits(data[0], 8) + MessageBits(data[1..])
  }

  function Left(x: bv8, n: nat): bv8
    decreases n
  {
    if n == 0 then x else Left(x << 1, n - 1)
  }

  lemma SplitTop(x: bv8)
    ensures High(x) == Xor(TopBit(x & 0x80 != 0), High(x & 0x7F))
    ensures High(x & 0x7F) & 0xFF800000 == 0 && Double(High(x & 0x7F)) == High(x << 1)
  {
  }

  lemma ShiftOctet(v: bv32, x: bv8)
    ensures Shift(Xor(v, High(x))) == Xor(BitShift(v, x & 0x80 != 0), High(x << 1))
  {
    SplitTop(x);
    var top, low := TopBit(x & 0x80 != 0), High(x & 0x7F);
    ShiftOfClear(low);
    hide Xor, Double, Shift, TopBit, High;
    XorAssociates(v, top, low);
    ShiftLinear(Xor(v, top), low);
  }

  lemma {:induction false} FoldBitsAppend(v: bv32, a: Bits, b: Bits)
    ensures FoldBits(v, a + b) == FoldBits(FoldBits(v, a), b)
  {
    hide BitShift;
    if b == [] {
      assert a + b == a;
    } else {
      var n := |b| - 1;
      assert (a + b)[..|a + b| - 1] == a + b[..n];
      FoldBitsAppend(v, a, b[..n]);
    }
  }

  lemma FoldBitsCons(v: bv32, b: bool, s: Bits)
    ensures FoldBits(v, [b] + s) == FoldBits(BitShift(v, b), s)
  {
    hide BitShift;
    FoldBitsAppend(v, [b], s);
    assert [b][..0] == [];
    assert FoldBits(v, []) == v;
  }

  lemma {:induction false} ShiftsOctet(v: bv32, x: bv8, n: nat)
    ensures Shifts(Xor(v, High(x)), n) == Xor(FoldBits(v, OctetBits(x, n)), High(Left(x, n)))
    decreases n
  {
    hide Xor, Shift, BitShift, High;
    if n > 0 {
      ShiftOctet(v, x);
      ShiftsOctet(BitShift(v, x & 0x80 != 0), x << 1, n - 1);
      FoldBitsCons(v, x & 0x80 != 0, OctetBits(x << 1, n - 1));
    }
  }

  lemma LeftEight(x: bv8)
    ensures High(Left(x, 8)) == 0
  {
    assert Left(x, 8) == Left(x << 1 << 1 << 1 << 1, 4);
    assert Left(x << 1 << 1 << 1 << 1, 4) == x << 1 << 1 << 1 << 1 << 1 << 1 << 1 << 1;
  }

  lemma AbsorbIsBits(v: bv32, x: bv8)
    ensures Absorb(v, x) == FoldBits(v, OctetBits(x, 8))
  {
    hide Xor, Shifts, FoldBits, High;
    ShiftsOctet(v, x, 8);
    LeftEight(x);
    ZeroDoubles(FoldBits(v, OctetBits(x, 8)));
  }

  lemma {:induction false} FoldIsBits(v: bv32, data: seq<bv8>)
    ensures Fold(v, data) == FoldBits(v, MessageBits(data))
    decreases data
  {
    if data != [] {
      hide FoldBits, Absorb, OctetBits;
      AbsorbIsBits(v, data[0]);
      FoldIsBits(Absorb(v, data[0]), data[1..]);
      FoldBitsAppend(v, OctetBits(data[0], 8), MessageBits(data[1..]));
    }
  }

  lemma Parity(a: bv32, x: bool)
    ensures Xor(Double(a), Bit(x)) & 1 == Bit(x)
  {
  }

  lemma BitInjective(x: bool, y: bool)
    requires Bit(x) == Bit(y)
    ensures x == y
  {
  }

  lemma EvenAndOdd(a: bv32, b: bv32, x: bool, y: bool)
    requires Xor(Double(a), Bit(x)) == Xor(Double(b), Bit(y))
    ensures x == y && Double(a) == Double(b)
  {
    hide Xor, Double, Bit;
    Parity(a, x);
    Parity(b, y);
    BitInjective(x, y);
    XorCancels(Double(a), Bit(x));
    XorCancels(Double(b), Bit(y));
  }

  lemma ClearTop(v: bv32)
    requires Clear(v, 0xFF000000)
    ensures Register(v)
  {
  }

  lemma RegisterMask()
    ensures Mask(24) == 0xFF000000
  {
    assert Mask(8) == 0xFFFFFF00;
    assert Mask(16) == 0xFFFF0000;
  }

  lemma BelowMask(v: bv32, n: nat)
    requires n <= 24 && Clear(v, Mask(n))
    ensures Register(v)
  {
    hide Clear, Register, Contains;
    RegisterMask();
    MaskShrinks(n, 24);
    ClearLess(v, Mask(n), Mask(24));
    ClearTop(v);
  }

  lemma ClearLess(v: bv32, m: bv32, m': bv32)
    requires Clear(v, m) && Contains(m, m')
    ensures Clear(v, m')
  {
  }

  lemma ContainsTransitive(a: bv32, b: bv32, c: bv32)
    requires Contains(a, b) && Contains(b, c)
    ensures Contains(a, c)
  {
  }

  lemma ContainsSelf(m: bv32)
    ensures Contains(m, m)
  {
  }

  lemma DoubleContains(a: bv32, b: bv32)
    requires Contains(a, b)
    ensures Contains(Double(a), Double(b))
  {
    hide And, Double;
    DoubleAnd(a, b);
  }

  lemma AllContains(m: bv32)
    ensures Contains(0xFFFFFFFF, m)
  {
  }

  lemma {:induction false} MaskContains(n: nat)
    ensures Contains(Mask(n), Mask(n + 1))
  {
    hide Contains, Double;
    if n == 0 {
      AllContains(Mask(1));
    } else {
      MaskContains(n - 1);
      DoubleContains(Mask(n - 1), Mask(n));
    }
  }

  lemma {:induction false} MaskShrinks(n: nat, n': nat)
    requires n <= n'
    ensures Contains(Mask(n), Mask(n'))
    decreases n' - n
  {
    hide Contains, Mask;
    if n < n' {
      MaskShrinks(n + 1, n');
      MaskContains(n);
      ContainsTransitive(Mask(n), Mask(n + 1), Mask(n'));
    } else {
      ContainsSelf(Mask(n));
    }
  }

  lemma {:induction false} ValueInjective(s: Bits, t: Bits)
    requires |s| == |t| <= 24 && Value(s) == Value(t)
    ensures s == t
  {
    if s != [] {
      hide Xor, Double, Bit, Register, Mask, Clear;
      var n := |s| - 1;
      EvenAndOdd(Value(s[..n]), Value(t[..n]), s[n], t[n]);
      ValueBelow(s[..n]);
      ValueBelow(t[..n]);
      BelowMask(Value(s[..n]), n);
      BelowMask(Value(t[..n]), n);
      DoubleInjective(Value(s[..n]), Value(t[..n]));
      ValueInjective(s[..n], t[..n]);
      assert s == s[..n] + [s[n]] && t == t[..n] + [t[n]];
    }
  }

  /** The checksum is the polynomial remainder, and no other register is. */
  lemma CrcIsRemainder(data: seq<bv8>, r: Bits)
    ensures IsRemainder(MessageBits(data), r) <==> |r| == 24 && Value(r) == Crc(data)
  {
    hide Divides, Value, FoldBits, Run, Fold;
    var message := MessageBits(data);
    var run := Run(INITIAL, message);
    RunDivides(message);
    ValueRun(INITIAL, message);
    InitialValue();
    FoldIsBits(INIT, data);
    assert Value(run) == Crc(data);
    forall q | Divides(message, q, r)
      ensures r == run
    {
      RemainderUnique(message, q, r, Quotient(message), run);
    }
    if |r| == 24 && Value(r) == Crc(data) {
      ValueInjective(r, run);
    }
  }
}
