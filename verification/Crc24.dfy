/**
 * The OpenPGP armor checksum (section 6.1 of RFC 4880): the shift register of the
 * source and its algebra. Bit-level facts are proved one at a time; everything
 * above them reasons with `Xor`, `Double` and `Carry` as plain symbols.
 */
module Crc24 {
  const INIT: bv32 := 0xB704CE
  const POLY: bv32 := 0x1864CFB

  predicate Register(v: bv32) { v & 0xFF000000 == 0 }

  function Xor(a: bv32, b: bv32): bv32 { a ^ b }

  function Double(v: bv32): bv32 { v << 1 }

  predicate Carry(v: bv32) { v & 0x1000000 != 0 }

  /** An octet at the top, the middle and the bottom of the register. */
  function High(x: bv8): bv32 { (x as bv32) << 16 }
  function Middle(x: bv8): bv32 { (x as bv32) << 8 }
  function Low(x: bv8): bv32 { x as bv32 }

  function Shift(v: bv32): bv32 {
    if Carry(Double(v)) then Xor(Double(v), POLY) else Double(v)
  }

  function Shifts(v: bv32, n: nat): bv32
    decreases n
  {
    if n == 0 then v else Shifts(Shift(v), n - 1)
  }

  function Absorb(v: bv32, octet: bv8): bv32 {
    Shifts(Xor(v, High(octet)), 8)
  }

  function Fold(v: bv32, data: seq<bv8>): bv32
    decreases data
  {
    if data == [] then v else Fold(Absorb(v, data[0]), data[1..])
  }

  function Crc(data: seq<bv8>): bv32 {
    Fold(INIT, data)
  }

  /** The checksum loop of the source. The mask on return never removes a bit. */
  method Checksum(decoded: seq<bv8>) returns (crc: bv32)
    ensures crc == Crc(decoded) && Register(crc)
  {
    var value := INIT;
    for i := 0 to |decoded|
      invariant Register(value)
      invariant Fold(value, decoded[i..]) == Crc(decoded)
    {
      ghost var before := value;
      value := value ^ ((decoded[i] as bv32) << 16);
      OctetsAreRegisters(decoded[i]);
      XorRegister(before, High(decoded[i]));
      for k := 0 to 8
        invariant Register(value)
        invariant Shifts(value, 8 - k) == Absorb(before, decoded[i])
      {
        ShiftRegister(value);
        value := value << 1;
        if value & 0x1000000 != 0 {
          value := value ^ 0x1864CFB;
        }
      }
      assert decoded[i..][1..] == decoded[i + 1..];
    }
    MaskIsIdentity(value);
    return value & 0xFFFFFF;
  }

  // ---------------------------------------------------------- facts about bits

  lemma MaskIsIdentity(v: bv32)
    requires Register(v)
    ensures v & 0xFFFFFF == v
  {
  }

  lemma OctetsAreRegisters(x: bv8)
    ensures Register(High(x)) && Register(Middle(x)) && Register(Low(x))
  {
  }

  lemma XorRegister(a: bv32, b: bv32)
    requires Register(a) && Register(b)
    ensures Register(Xor(a, b))
  {
  }

  lemma ShiftRegister(v: bv32)
    requires Register(v)
    ensures Register(Shift(v))
  {
  }

  lemma DoubleXor(a: bv32, b: bv32)
    ensures Double(Xor(a, b)) == Xor(Double(a), Double(b))
  {
  }

  lemma CarryXor(x: bv32, y: bv32)
    ensures Carry(Xor(x, y)) <==> Carry(x) != Carry(y)
  {
  }

  lemma XorCommutes(a: bv32, b: bv32)
    ensures Xor(a, b) == Xor(b, a)
  {
  }

  lemma XorAssociates(a: bv32, b: bv32, c: bv32)
    ensures Xor(Xor(a, b), c) == Xor(a, Xor(b, c))
  {
  }

  lemma XorCancels(a: bv32, b: bv32)
    ensures Xor(a, Xor(a, b)) == b && Xor(Xor(a, b), b) == a
    ensures Xor(a, b) == 0 <==> a == b
  {
  }

  lemma XorMoves(x: bv32, y: bv32, p: bv32)
    ensures Xor(Xor(x, p), Xor(y, p)) == Xor(x, y)
    ensures Xor(Xor(x, p), y) == Xor(Xor(x, y), p)
    ensures Xor(x, Xor(y, p)) == Xor(Xor(x, y), p)
  {
    hide Xor;
    XorAssociates(x, y, p);
    XorAssociates(x, p, y);
    XorCommutes(p, y);
    XorAssociates(Xor(x, p), y, p);
    XorCancels(Xor(x, y), p);
  }

  lemma DoubleInjective(a: bv32, b: bv32)
    requires Register(a) && Register(b) && Double(a) == Double(b)
    ensures a == b
  {
  }

  /** The polynomial is odd and doubling is even, so the two branches of a shift never meet. */
  lemma DoubleIsEven(a: bv32, b: bv32)
    ensures Double(a) != Xor(Double(b), POLY)
  {
  }

  // ---------------------------------------------------- the register's algebra

  lemma ShiftLinear(a: bv32, b: bv32)
    ensures Shift(Xor(a, b)) == Xor(Shift(a), Shift(b))
  {
    hide Xor, Double, Carry;
    DoubleXor(a, b);
    CarryXor(Double(a), Double(b));
    XorMoves(Double(a), Double(b), POLY);
  }

  lemma ShiftInjective(a: bv32, b: bv32)
    requires Register(a) && Register(b) && Shift(a) == Shift(b)
    ensures a == b
  {
    hide Xor, Double, Carry, Register;
    DoubleIsEven(a, b);
    DoubleIsEven(b, a);
    XorCancels(Double(a), POLY);
    XorCancels(Double(b), POLY);
    DoubleInjective(a, b);
  }

  lemma {:induction false} ShiftsRegister(v: bv32, n: nat)
    requires Register(v)
    ensures Register(Shifts(v, n))
    decreases n
  {
    hide Shift, Register;
    if n > 0 {
      ShiftRegister(v);
      ShiftsRegister(Shift(v), n - 1);
    }
  }

  lemma {:induction false} ShiftsLinear(a: bv32, b: bv32, n: nat)
    ensures Shifts(Xor(a, b), n) == Xor(Shifts(a, n), Shifts(b, n))
    decreases n
  {
    hide Shift, Xor;
    if n > 0 {
      ShiftLinear(a, b);
      ShiftsLinear(Shift(a), Shift(b), n - 1);
    }
  }

  lemma {:induction false} ShiftsInjective(a: bv32, b: bv32, n: nat)
    requires Register(a) && Register(b) && Shifts(a, n) == Shifts(b, n)
    ensures a == b
    decreases n
  {
    hide Shift, Register;
    if n > 0 {
      ShiftRegister(a);
      ShiftRegister(b);
      ShiftsInjective(Shift(a), Shift(b), n - 1);
      ShiftInjective(a, b);
    }
  }

  lemma {:induction false} ShiftsAdd(v: bv32, m: nat, n: nat)
    ensures Shifts(Shifts(v, m), n) == Shifts(v, m + n)
    decreases m
  {
    hide Shift;
    if m > 0 {
      ShiftsAdd(Shift(v), m - 1, n);
    }
  }

  lemma {:induction false} ShiftsOfZero(n: nat)
    ensures Shifts(0, n) == 0
    decreases n
  {
    if n > 0 {
      assert Shift(0) == 0;
      ShiftsOfZero(n - 1);
    }
  }

  lemma AbsorbRegister(v: bv32, octet: bv8)
    requires Register(v)
    ensures Register(Xor(v, High(octet))) && Register(Absorb(v, octet))
  {
    hide Shifts, Register;
    OctetsAreRegisters(octet);
    XorRegister(v, High(octet));
    ShiftsRegister(Xor(v, High(octet)), 8);
  }

  lemma {:induction false} FoldRegister(v: bv32, data: seq<bv8>)
    requires Register(v)
    ensures Register(Fold(v, data))
    decreases data
  {
    hide Absorb, Register;
    if data != [] {
      AbsorbRegister(v, data[0]);
      FoldRegister(Absorb(v, data[0]), data[1..]);
    }
  }

  lemma CrcRegister(data: seq<bv8>)
    ensures Register(Crc(data))
  {
    assert Register(INIT);
    hide Fold, Register;
    FoldRegister(INIT, data);
  }

  lemma {:induction false} FoldAppend(v: bv32, a: seq<bv8>, b: seq<bv8>)
    ensures Fold(v, a + b) == Fold(Fold(v, a), b)
    decreases a
  {
    hide Absorb;
    if a == [] {
      assert a + b == b;
    } else {
      assert (a + b)[1..] == a[1..] + b;
      FoldAppend(Absorb(v, a[0]), a[1..], b);
    }
  }

  lemma AbsorbInjective(a: bv32, b: bv32, octet: bv8)
    requires Register(a) && Register(b) && Absorb(a, octet) == Absorb(b, octet)
    ensures a == b
  {
    hide Shifts, Register, Xor, High;
    AbsorbRegister(a, octet);
    AbsorbRegister(b, octet);
    ShiftsInjective(Xor(a, High(octet)), Xor(b, High(octet)), 8);
    XorCancels(a, High(octet));
    XorCancels(b, High(octet));
  }

  /** From two different registers, equal input never leads to equal registers. */
  lemma {:induction false} FoldInjective(a: bv32, b: bv32, data: seq<bv8>)
    requires Register(a) && Register(b) && Fold(a, data) == Fold(b, data)
    ensures a == b
    decreases data
  {
    hide Absorb, Register;
    if data != [] {
      AbsorbRegister(a, data[0]);
      AbsorbRegister(b, data[0]);
      FoldInjective(Absorb(a, data[0]), Absorb(b, data[0]), data[1..]);
      AbsorbInjective(a, b, data[0]);
    }
  }

  // ------------------------------------------------------- and all of it undone

  /** The register that one shift turned into v: only a carry leaves the lowest bit set. */
  function Unshift(v: bv32): bv32 {
    if v & 1 != 0 then (v ^ POLY) >> 1 else v >> 1
  }

  function Unshifts(v: bv32, n: nat): bv32
    decreases n
  {
    if n == 0 then v else Unshift(Unshifts(v, n - 1))
  }

  function Unabsorb(v: bv32, octet: bv8): bv32 {
    Xor(Unshifts(v, 8), High(octet))
  }

  /** The register from which the data leads to v. */
  function Back(v: bv32, data: seq<bv8>): bv32
    decreases data
  {
    if data == [] then v else Unabsorb(Back(v, data[1..]), data[0])
  }

  lemma ShiftUnshift(v: bv32)
    requires Register(v)
    ensures Register(Unshift(v)) && Shift(Unshift(v)) == v
  {
  }

  lemma {:induction false} ShiftsUnshifts(v: bv32, n: nat)
    requires Register(v)
    ensures Register(Unshifts(v, n)) && Shifts(Unshifts(v, n), n) == v
    decreases n
  {
    hide Register, Shift, Unshift;
    if n > 0 {
      ShiftsUnshifts(v, n - 1);
      ShiftUnshift(Unshifts(v, n - 1));
    }
  }

  lemma AbsorbUnabsorb(v: bv32, octet: bv8)
    requires Register(v)
    ensures Register(Unabsorb(v, octet)) && Absorb(Unabsorb(v, octet), octet) == v
  {
    hide Register, Xor, High, Shifts, Unshifts;
    ShiftsUnshifts(v, 8);
    OctetsAreRegisters(octet);
    XorRegister(Unshifts(v, 8), High(octet));
    XorCancels(Unshifts(v, 8), High(octet));
  }

  lemma {:induction false} FoldBack(v: bv32, data: seq<bv8>)
    requires Register(v)
    ensures Register(Back(v, data)) && Fold(Back(v, data), data) == v
    decreases data
  {
    hide Register, Absorb, Unabsorb;
    if data != [] {
      FoldBack(v, data[1..]);
      AbsorbUnabsorb(Back(v, data[1..]), data[0]);
    }
  }

  /** Whatever the data, it permutes the registers: each is reached, and from one register only. */
  lemma FoldBijective(v: bv32, data: seq<bv8>)
    requires Register(v)
    ensures Register(Back(v, data)) && forall a: bv32 :: Register(a) ==> (Fold(a, data) == v <==> a == Back(v, data))
  {
    hide Fold, Back, Register;
    FoldBack(v, data);
    forall a: bv32 | Register(a) && Fold(a, data) == v ensures a == Back(v, data) {
      FoldInjective(a, Back(v, data), data);
    }
  }

  // -------------------------------------------------- three octets at a time

  function Word(x: bv8, y: bv8, z: bv8): bv32 {
    Xor(High(x), Xor(Middle(y), Low(z)))
  }

  /** The three big-endian octets of a register, Python's to_bytes(3). */
  function Octets(v: bv32): (o: seq<bv8>)
    ensures |o| == 3
  {
    [((v >> 16) & 0xFF) as bv8, ((v >> 8) & 0xFF) as bv8, (v & 0xFF) as bv8]
  }

  lemma WordOfOctets(v: bv32)
    requires Register(v)
    ensures Word(Octets(v)[0], Octets(v)[1], Octets(v)[2]) == v
  {
  }

  lemma WordInjective(x: bv8, y: bv8, z: bv8, x': bv8, y': bv8, z': bv8)
    requires Word(x, y, z) == Word(x', y', z')
    ensures x == x' && y == y' && z == z'
  {
    var w := Word(x, y, z);
    assert (w >> 16) & 0xFF == x as bv32 && (w >> 8) & 0xFF == y as bv32 && w & 0xFF == z as bv32;
    assert (w >> 16) & 0xFF == x' as bv32 && (w >> 8) & 0xFF == y' as bv32 && w & 0xFF == z' as bv32;
  }

  lemma OctetsOfWord(v: bv32, x: bv8, y: bv8, z: bv8)
    requires Register(v)
    ensures v == Word(x, y, z) <==> [x, y, z] == Octets(v)
  {
    WordOfOctets(v);
    var o := Octets(v);
    hide Word, Octets;
    assert [x, y, z] == o <==> x == o[0] && y == o[1] && z == o[2];
    if v == Word(x, y, z) {
      WordInjective(x, y, z, o[0], o[1], o[2]);
    }
  }

  lemma WordRegister(x: bv8, y: bv8, z: bv8)
    ensures Register(Word(x, y, z))
  {
    hide Xor, Register, High, Middle, Low;
    OctetsAreRegisters(x);
    OctetsAreRegisters(y);
    OctetsAreRegisters(z);
    XorRegister(Middle(y), Low(z));
    XorRegister(High(x), Xor(Middle(y), Low(z)));
  }

  lemma ShiftOfClear(v: bv32)
    requires v & 0xFF800000 == 0
    ensures Shift(v) == Double(v)
  {
  }

  /** A value whose top octet is clear only moves left. */
  lemma ClearTopMoves(v: bv32)
    requires v & 0xFFFF0000 == 0
    ensures Shifts(v, 8) == v << 8
  {
    var v1, v2, v3, v4 := v << 1, v << 2, v << 3, v << 4;
    var v5, v6, v7, v8 := v << 5, v << 6, v << 7, v << 8;
    assert Shift(v) == v1;
    assert Shift(v1) == v2;
    assert Shift(v2) == v3;
    assert Shift(v3) == v4;
    assert Shift(v4) == v5;
    assert Shift(v5) == v6;
    assert Shift(v6) == v7;
    assert Shift(v7) == v8;
    assert Shifts(v7, 1) == v8 && Shifts(v6, 2) == v8 && Shifts(v5, 3) == v8 && Shifts(v4, 4) == v8;
    assert Shifts(v3, 5) == v8 && Shifts(v2, 6) == v8 && Shifts(v1, 7) == v8;
  }

  lemma MiddleMoves(x: bv8)
    ensures Shifts(Middle(x), 8) == High(x) && Shifts(Low(x), 8) == Middle(x)
  {
    ClearTopMoves((x as bv32) << 8);
    ClearTopMoves(x as bv32);
  }

  lemma AbsorbTwo(v: bv32, x: bv8, y: bv8)
    ensures Absorb(Absorb(v, x), y) == Shifts(Xor(Xor(v, High(x)), Middle(y)), 16)
  {
    hide Shifts, Xor, High, Middle, Low;
    var v0 := Xor(v, High(x));
    MiddleMoves(y);
    ShiftsLinear(v0, Middle(y), 8);
    ShiftsAdd(Xor(v0, Middle(y)), 8, 8);
  }

  lemma AbsorbThree(v: bv32, x: bv8, y: bv8, z: bv8)
    ensures Absorb(Absorb(Absorb(v, x), y), z) == Shifts(Xor(v, Word(x, y, z)), 24)
  {
    hide Shifts, Xor, High, Middle, Low;
    AbsorbTwo(v, x, y);
    var w := Xor(Xor(v, High(x)), Middle(y));
    MiddleMoves(z);
    ShiftsAdd(Low(z), 8, 8);
    ShiftsLinear(w, Low(z), 16);
    ShiftsAdd(Xor(w, Low(z)), 16, 8);
    XorAssociates(Xor(v, High(x)), Middle(y), Low(z));
    XorAssociates(v, High(x), Xor(Middle(y), Low(z)));
  }

  lemma FoldOne(v: bv32, data: seq<bv8>)
    requires data != []
    ensures Fold(v, data) == Fold(Absorb(v, data[0]), data[1..])
  {
  }

  lemma FoldThree(v: bv32, x: bv8, y: bv8, z: bv8)
    ensures Fold(v, [x, y, z]) == Shifts(Xor(v, Word(x, y, z)), 24)
  {
    hide Absorb, Shifts, Xor, Word;
    AbsorbThree(v, x, y, z);
    assert [x, y, z][1..] == [y, z] && [y, z][1..] == [z] && [z][1..] == [];
    FoldOne(v, [x, y, z]);
    FoldOne(Absorb(v, x), [y, z]);
    FoldOne(Absorb(Absorb(v, x), y), [z]);
  }

  /** Three appended octets give residue zero exactly when they are the message's checksum. */
  lemma ResidueIff(data: seq<bv8>, x: bv8, y: bv8, z: bv8)
    ensures Crc(data + [x, y, z]) == 0 <==> [x, y, z] == Octets(Crc(data))
  {
    var v, w := Crc(data), Word(x, y, z);
    assert Register(INIT);
    hide Shifts, Word, Octets, Xor, Register;
    FoldRegister(INIT, data);
    FoldAppend(INIT, data, [x, y, z]);
    FoldThree(v, x, y, z);
    ShiftsOfZero(24);
    XorCancels(v, w);
    OctetsOfWord(v, x, y, z);
    WordRegister(x, y, z);
    XorRegister(v, w);
    if Shifts(Xor(v, w), 24) == 0 {
      ZeroRegister();
      ShiftsInjective(Xor(v, w), 0, 24);
    }
  }

  lemma ZeroRegister()
    ensures Register(0)
  {
  }

  // ------------------------------------------------------------ burst detection

  lemma ThreeOctetsInjective(v: bv32, w: seq<bv8>, w': seq<bv8>)
    requires Register(v) && |w| == |w'| == 3 && Fold(v, w) == Fold(v, w')
    ensures w == w'
  {
    hide Shifts, Word, Fold, Xor, Register;
    assert w == [w[0], w[1], w[2]] && w' == [w'[0], w'[1], w'[2]];
    FoldThree(v, w[0], w[1], w[2]);
    FoldThree(v, w'[0], w'[1], w'[2]);
    var a, b := Word(w[0], w[1], w[2]), Word(w'[0], w'[1], w'[2]);
    WordRegister(w[0], w[1], w[2]);
    WordRegister(w'[0], w'[1], w'[2]);
    XorRegister(v, a);
    XorRegister(v, b);
    ShiftsInjective(Xor(v, a), Xor(v, b), 24);
    XorCancels(v, a);
    XorCancels(v, b);
    WordInjective(w[0], w[1], w[2], w'[0], w'[1], w'[2]);
  }

  lemma {:induction false} ShortInjective(v: bv32, w: seq<bv8>, w': seq<bv8>)
    requires Register(v) && |w| == |w'| <= 3 && Fold(v, w) == Fold(v, w')
    ensures w == w'
    decreases 3 - |w|
  {
    hide Fold, Register;
    if |w| == 3 {
      ThreeOctetsInjective(v, w, w');
    } else {
      FoldAppend(v, w, [0]);
      FoldAppend(v, w', [0]);
      ShortInjective(v, w + [0], w' + [0]);
      assert w == (w + [0])[..|w|] && w' == (w' + [0])[..|w|];
    }
  }

  /** A change confined to three consecutive octets always changes the checksum. */
  lemma BurstDetected(before: seq<bv8>, w: seq<bv8>, w': seq<bv8>, after: seq<bv8>)
    requires |w| == |w'| <= 3 && w != w'
    ensures Crc(before + w + after) != Crc(before + w' + after)
  {
    assert Register(INIT);
    hide Fold, Register;
    var v := Crc(before);
    FoldRegister(INIT, before);
    FoldAppend(INIT, before + w, after);
    FoldAppend(INIT, before, w);
    FoldAppend(INIT, before + w', after);
    FoldAppend(INIT, before, w');
    FoldRegister(v, w);
    FoldRegister(v, w');
    if Crc(before + w + after) == Crc(before + w' + after) {
      FoldInjective(Fold(v, w), Fold(v, w'), after);
      ShortInjective(v, w, w');
    }
  }

  // ------------------------------------------------------------ a known value

  function Eight(v: bv32): bv32 { Shift(Shift(Shift(Shift(Shift(Shift(Shift(Shift(v)))))))) }

  lemma ShiftsEight(v: bv32)
    ensures Shifts(v, 8) == Eight(v)
  {
    hide Shift;
    var a, b := Shift(Shift(v)), Shift(Shift(Shift(Shift(v))));
    var c := Shift(Shift(b));
    assert Shifts(v, 8) == Shifts(a, 6);
    assert Shifts(a, 6) == Shifts(b, 4);
    assert Shifts(b, 4) == Shifts(c, 2);
  }

  lemma FoldFirst(v: bv32, octet: bv8, next: bv32, data: seq<bv8>)
    requires data != [] && data[0] == octet && Eight(Xor(v, High(octet))) == next
    ensures Fold(v, data) == Fold(next, data[1..])
  {
    ShiftsEight(Xor(v, High(octet)));
    hide Eight, Shifts, Xor, High;
  }

  lemma KnownSteps()
    ensures Eight(Xor(0xB704CE, High(0x31))) == 0x2EBA48
    ensures Eight(Xor(0x2EBA48, High(0x32))) == 0x4D6151
    ensures Eight(Xor(0x4D6151, High(0x33))) == 0x09DF67
    ensures Eight(Xor(0x09DF67, High(0x34))) == 0xA2D343
    ensures Eight(Xor(0xA2D343, High(0x35))) == 0xBA353A
    ensures Eight(Xor(0xBA353A, High(0x36))) == 0x341A7C
    ensures Eight(Xor(0x341A7C, High(0x37))) == 0x16E5F6
    ensures Eight(Xor(0x16E5F6, High(0x38))) == 0x51953C
    ensures Eight(Xor(0x51953C, High(0x39))) == 0x21CF02
  {
  }

  lemma FoldNone(v: bv32)
    ensures Fold(v, []) == v
    ensures forall data: seq<bv8> :: Crc(data) == Fold(0xB704CE, data)
  {
  }

  /** The checksum that is published for the nine digits "123456789", and the one of nothing. */
  lemma CheckValue()
    ensures Crc([0x31, 0x32, 0x33, 0x34, 0x35, 0x36, 0x37, 0x38, 0x39]) == 0x21CF02
    ensures Crc([]) == 0xB704CE
  {
    hide Eight, Xor, High, Fold, Crc;
    KnownSteps();
    FoldNone(0x21CF02);
    FoldNone(0xB704CE);
    var data: seq<bv8> := [0x31, 0x32, 0x33, 0x34, 0x35, 0x36, 0x37, 0x38, 0x39];
    FoldFirst(0xB704CE, 0x31, 0x2EBA48, data[0..]);
    FoldFirst(0x2EBA48, 0x32, 0x4D6151, data[1..]);
    FoldFirst(0x4D6151, 0x33, 0x09DF67, data[2..]);
    FoldFirst(0x09DF67, 0x34, 0xA2D343, data[3..]);
    FoldFirst(0xA2D343, 0x35, 0xBA353A, data[4..]);
    FoldFirst(0xBA353A, 0x36, 0x341A7C, data[5..]);
    FoldFirst(0x341A7C, 0x37, 0x16E5F6, data[6..]);
    FoldFirst(0x16E5F6, 0x38, 0x51953C, data[7..]);
    FoldFirst(0x51953C, 0x39, 0x21CF02, data[8..]);
    assert data[0..][1..] == data[1..];
    assert data[1..][1..] == data[2..];
    assert data[2..][1..] == data[3..];
    assert data[3..][1..] == data[4..];
    assert data[4..][1..] == data[5..];
    assert data[5..][1..] == data[6..];
    assert data[6..][1..] == data[7..];
    assert data[7..][1..] == data[8..];
    assert data[8..][1..] == data[9..];
    assert data[9..] == [];
  }
}
