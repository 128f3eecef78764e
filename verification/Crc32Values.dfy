/** What pins the CRC down to the one of section 8 of RFC 1952: its check value, and the
    residue every message leaves behind its own CRC. */
module Crc32Values {
  import opened Crc32Table
  import opened Crc32
  import opened Crc32Burst

  /** A word's bytes, lowest first. */
  function Bytes(w: bv32): seq<bv8> {
    [(w & 0xFF) as bv8, ((w >> 8) & 0xFF) as bv8, ((w >> 16) & 0xFF) as bv8, ((w >> 24) & 0xFF) as bv8]
  }

  /** A message followed by its CRC has a CRC of its own that does not depend on it. */
  lemma {:induction false} Residue(m: seq<bv8>)
    ensures Crc(0, m + Bytes(Crc(0, m))) == 0x2144_DF1C
  {
    hide Register, Bits, Bytes, Steps, Xor, WordBits;
    var r := Register(Complement(0), Bits(m));
    var w := Complement(r);
    BitsAppend(m, Bytes(w));
    RegisterAppend(Complement(0), Bits(m), Bits(Bytes(w)));
    BytesAreBits(w);
    AbsorbMany(r, w, 32);
    NothingAbove(w);
    XorZero(Register(r, WordBits(w, 32)));
    XorComplement(r);
    OnesAfter();
  }

  lemma XorComplement(r: bv32)
    ensures Xor(r, Complement(r)) == 0xFFFF_FFFF
  {
  }

  /** The register after 32 steps from all ones. */
  lemma {:induction false} OnesAfter()
    ensures Complement(Steps(0xFFFF_FFFF, 32)) == 0x2144_DF1C
  {
    FourTimesEight(0xFFFF_FFFF);
    OnesSteps();
    assert Complement(0xDEBB_20E3) == 0x2144_DF1C;
    hide Step8, Steps;
  }

  lemma OnesSteps()
    ensures Step8(0xFFFF_FFFF) == 0x2DFD_1072 && Step8(0x2DFD_1072) == 0xBE26_ED00
    ensures Step8(0xBE26_ED00) == 0x00BE_26ED && Step8(0x00BE_26ED) == 0xDEBB_20E3
  {
  }

  lemma {:induction false} StepsAdd(c: bv32, m: nat, n: nat)
    ensures Steps(c, m + n) == Steps(Steps(c, m), n)
    decreases m
  {
    hide Step;
    if m > 0 {
      StepsAdd(Step(c), m - 1, n);
    }
  }

  lemma {:induction false} FourTimesEight(c: bv32)
    ensures Steps(c, 32) == Step8(Step8(Step8(Step8(c))))
  {
    hide Steps, Step8;
    StepsAdd(c, 8, 24);
    StepsAdd(Step8(c), 8, 16);
    StepsAdd(Step8(Step8(c)), 8, 8);
    StepsEight(c);
    StepsEight(Step8(c));
    StepsEight(Step8(Step8(c)));
    StepsEight(Step8(Step8(Step8(c))));
  }

  lemma {:induction false} BitsAdd(w: bv32, m: nat, n: nat)
    ensures WordBits(w, m + n) == WordBits(w, m) + WordBits(Halves(w, m), n)
    decreases m
  {
    hide Odd, Half;
    if m > 0 {
      BitsAdd(Half(w), m - 1, n);
    }
  }

  lemma NothingAbove(w: bv32)
    ensures Halves(w, 32) == 0
  {
    HalvesAdd(w, 8, 24);
    HalvesAdd(ShiftByte(w), 8, 16);
    HalvesAdd(ShiftByte(ShiftByte(w)), 8, 8);
    HalvesShift(w);
    HalvesShift(ShiftByte(w));
    HalvesShift(ShiftByte(ShiftByte(w)));
    HalvesShift(ShiftByte(ShiftByte(ShiftByte(w))));
  }

  /** The low eight bits. */
  lemma {:induction false} ByteOfBits(w: bv32)
    ensures ByteBits((w & 0xFF) as bv8) == WordBits(w, 8)
  {
    hide WordBits, Xor, LowZero;
    LowParts(w);
    HighIsZero(w & 0xFFFF_FF00);
    ZeroAdds(w & 0xFF, w & 0xFFFF_FF00, 8);
  }

  lemma LowParts(w: bv32)
    ensures Xor(w & 0xFF, w & 0xFFFF_FF00) == w && ((w & 0xFF) as bv8) as bv32 == w & 0xFF
    ensures (w & 0xFFFF_FF00) & 0xFF == 0
  {
  }

  /** Whether the low n bits are clear. */
  predicate LowZero(z: bv32, n: nat) {
    n == 0 || (!Odd(z) && LowZero(Half(z), n - 1))
  }

  lemma {:induction false} ZeroAdds(v: bv32, z: bv32, n: nat)
    requires LowZero(z, n)
    ensures WordBits(Xor(v, z), n) == WordBits(v, n)
    decreases n
  {
    hide Odd, Half, Xor;
    if n > 0 {
      PartsLinear(v, z);
      ZeroAdds(Half(v), Half(z), n - 1);
    }
  }

  lemma {:induction false} HighIsZero(z: bv32)
    requires z & 0xFF == 0
    ensures LowZero(z, 8)
  {
    hide Odd, Half;
    MaskStep(z);
    var h1 := Half(z);
    MaskStep(h1);
    var h2 := Half(h1);
    MaskStep(h2);
    var h3 := Half(h2);
    MaskStep(h3);
    var h4 := Half(h3);
    MaskStep(h4);
    var h5 := Half(h4);
    MaskStep(h5);
    var h6 := Half(h5);
    MaskStep(h6);
    MaskStep(Half(h6));
    assert LowZero(Half(Half(h6)), 0);
    assert LowZero(Half(h6), 1);
    assert LowZero(h6, 2);
    assert LowZero(h5, 3);
    assert LowZero(h4, 4);
    assert LowZero(h3, 5);
    assert LowZero(h2, 6);
    assert LowZero(h1, 7);
  }

  lemma MaskStep(z: bv32)
    ensures z & 0xFF == 0 ==> !Odd(z) && Half(z) & 0x7F == 0
    ensures z & 0x7F == 0 ==> !Odd(z) && Half(z) & 0x3F == 0
    ensures z & 0x3F == 0 ==> !Odd(z) && Half(z) & 0x1F == 0
    ensures z & 0x1F == 0 ==> !Odd(z) && Half(z) & 0x0F == 0
    ensures z & 0x0F == 0 ==> !Odd(z) && Half(z) & 0x07 == 0
    ensures z & 0x07 == 0 ==> !Odd(z) && Half(z) & 0x03 == 0
    ensures z & 0x03 == 0 ==> !Odd(z) && Half(z) & 0x01 == 0
    ensures z & 0x01 == 0 ==> !Odd(z)
  {
  }

  lemma {:induction false} BytesAreBits(w: bv32)
    ensures Bits(Bytes(w)) == WordBits(w, 32)
  {
    hide WordBits, ByteBits, Halves;
    BitsAdd(w, 8, 24);
    BitsAdd(ShiftByte(w), 8, 16);
    BitsAdd(ShiftByte(ShiftByte(w)), 8, 8);
    HalvesShift(w);
    HalvesShift(ShiftByte(w));
    HalvesShift(ShiftByte(ShiftByte(w)));
    ByteOfBits(w);
    ByteOfBits(ShiftByte(w));
    ByteOfBits(ShiftByte(ShiftByte(w)));
    ByteOfBits(ShiftByte(ShiftByte(ShiftByte(w))));
    FourBytes((w & 0xFF) as bv8, ((w >> 8) & 0xFF) as bv8, ((w >> 16) & 0xFF) as bv8, ((w >> 24) & 0xFF) as bv8);
    ShiftsAre(w);
  }

  lemma ShiftsAre(w: bv32)
    ensures w >> 8 == ShiftByte(w) && w >> 16 == ShiftByte(ShiftByte(w)) && w >> 24 == ShiftByte(ShiftByte(ShiftByte(w)))
  {
  }

  lemma {:induction false} FourBytes(a: bv8, b: bv8, c: bv8, d: bv8)
    ensures Bits([a, b, c, d]) == ByteBits(a) + (ByteBits(b) + (ByteBits(c) + ByteBits(d)))
  {
    hide ByteBits;
    assert [d][1..] == [] && Bits([d]) == ByteBits(d) + Bits([]);
    assert ByteBits(d) + [] == ByteBits(d);
    assert [c, d][1..] == [d] && Bits([c, d]) == ByteBits(c) + Bits([d]);
    assert [b, c, d][1..] == [c, d] && Bits([b, c, d]) == ByteBits(b) + Bits([c, d]);
    assert [a, b, c, d][1..] == [b, c, d];
  }

  /** The nine characters "123456789". */
  const DIGITS: seq<bv8> := [0x31, 0x32, 0x33, 0x34, 0x35, 0x36, 0x37, 0x38, 0x39]

  /** The check value. */
  lemma {:induction false} CheckValue()
    ensures Crc(0, DIGITS) == 0xCBF4_3926
  {
    hide Register, Bits, Step8, Xor, Complement;
    NothingYet(0xFFFF_FFFF);
    FirstSteps();
    LaterSteps();
    Complements();
    var d := DIGITS;
    assert d[..0] == [] && d[..9] == d;
    Digit(0, 0x31, 0xFFFF_FFFF);
    Digit(1, 0x32, 0x7C23_1048);
    Digit(2, 0x33, 0xB0AC_BB32);
    Digit(3, 0x34, 0x77B7_9C2D);
    Digit(4, 0x35, 0x641C_1F5C);
    Digit(5, 0x36, 0x340A_C5E3);
    Digit(6, 0x37, 0xF68D_2C9E);
    Digit(7, 0x38, 0xAFFC_9660);
    Digit(8, 0x39, 0x651F_2550);
  }

  lemma Complements()
    ensures Complement(0) == 0xFFFF_FFFF && Complement(0x340B_C6D9) == 0xCBF4_3926
  {
  }

  /** One more digit. */
  lemma {:induction false} Digit(k: nat, b: bv8, before: bv32)
    requires k < 9 && DIGITS[k] == b && Register(0xFFFF_FFFF, Bits(DIGITS[..k])) == before
    ensures Register(0xFFFF_FFFF, Bits(DIGITS[..k + 1])) == Step8(Xor(before, b as bv32))
  {
    hide Register, Bits, Step8, Xor;
    ByteAfter(0xFFFF_FFFF, DIGITS[..k], b);
    assert DIGITS[..k] + [b] == DIGITS[..k + 1];
  }

  lemma FirstSteps()
    ensures Step8(Xor(0xFFFF_FFFF, 0x31)) == 0x7C23_1048 && Step8(Xor(0x7C23_1048, 0x32)) == 0xB0AC_BB32
    ensures Step8(Xor(0xB0AC_BB32, 0x33)) == 0x77B7_9C2D && Step8(Xor(0x77B7_9C2D, 0x34)) == 0x641C_1F5C
  {
  }

  lemma LaterSteps()
    ensures Step8(Xor(0x641C_1F5C, 0x35)) == 0x340A_C5E3 && Step8(Xor(0x340A_C5E3, 0x36)) == 0xF68D_2C9E
    ensures Step8(Xor(0xF68D_2C9E, 0x37)) == 0xAFFC_9660 && Step8(Xor(0xAFFC_9660, 0x38)) == 0x651F_2550
    ensures Step8(Xor(0x651F_2550, 0x39)) == 0x340B_C6D9
  {
  }

  lemma NothingYet(c: bv32)
    ensures Register(c, Bits([])) == c
  {
  }
}
