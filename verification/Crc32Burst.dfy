/** What the CRC detects: two messages of the same length whose differing bits all lie within
    32 consecutive bits never have the same CRC. */
module Crc32Burst {
  import opened Crc32Table
  import opened Crc32

  /** Where two runs of bits differ. */
  function Diff(x: seq<bool>, y: seq<bool>): (r: seq<bool>)
    requires |x| == |y|
    ensures |r| == |x| && forall i :: 0 <= i < |x| ==> r[i] == (x[i] != y[i])
  {
    seq(|x|, i requires 0 <= i < |x| => x[i] != y[i])
  }

  lemma BitWordXor(p: bool, q: bool)
    ensures BitWord(p != q) == Xor(BitWord(p), BitWord(q))
  {
  }

  lemma {:induction false} AbsorbXor(c: bv32, d: bv32, p: bool, q: bool)
    ensures Xor(Absorb(c, p), Absorb(d, q)) == Absorb(Xor(c, d), p != q)
  {
    hide Step, Xor, BitWord;
    BitWordXor(p, q);
    XorSwap(c, d, BitWord(p), BitWord(q));
    StepLinear(Xor(c, BitWord(p)), Xor(d, BitWord(q)));
  }

  /** Two registers differ by what a register started at their difference makes of the
      differing bits. */
  lemma {:induction false} RegisterXor(c: bv32, d: bv32, x: seq<bool>, y: seq<bool>)
    requires |x| == |y|
    ensures Xor(Register(c, x), Register(d, y)) == Register(Xor(c, d), Diff(x, y))
    decreases |x|
  {
    hide Absorb, Xor;
    if x != [] {
      AbsorbXor(c, d, x[0], y[0]);
      RegisterXor(Absorb(c, x[0]), Absorb(d, y[0]), x[1..], y[1..]);
      assert Diff(x, y)[1..] == Diff(x[1..], y[1..]);
    }
  }

  // ----------------------------------------------- a window as one word

  function Double(c: bv32): bv32 { c << 1 }

  predicate Apart(a: bv32, b: bv32) { a & b == 0 }

  predicate Within(a: bv32, b: bv32) { a & b == a }

  /** A run of bits as a word, the first bit lowest. */
  function Word(bits: seq<bool>): bv32 {
    if bits == [] then 0 else Xor(BitWord(bits[0]), Double(Word(bits[1..])))
  }

  /** The bits a run of length n leaves clear. */
  function Above(n: nat): bv32 {
    if n == 0 then 0xFFFF_FFFF else Double(Above(n - 1))
  }

  lemma DoubleKeeps(b: bool, w: bv32, m: bv32)
    requires Apart(w, m)
    ensures Apart(Xor(BitWord(b), Double(w)), Double(m))
  {
  }

  lemma ZeroApart(m: bv32)
    ensures Apart(0, m)
  {
  }

  lemma {:induction false} WordBelow(bits: seq<bool>)
    ensures Apart(Word(bits), Above(|bits|))
  {
    hide Xor, Double, Apart, BitWord;
    if bits == [] {
      ZeroApart(Above(0));
    } else {
      WordBelow(bits[1..]);
      DoubleKeeps(bits[0], Word(bits[1..]), Above(|bits| - 1));
    }
  }

  lemma DoubleWithin(a: bv32, b: bv32)
    requires Within(a, b)
    ensures Within(Double(a), Double(b))
  {
  }

  lemma OnesAbove()
    ensures Within(Above(1), Above(0))
  {
  }

  lemma {:induction false} AboveShrinks(n: nat)
    ensures Within(Above(n + 1), Above(n))
  {
    hide Within, Double;
    if n > 0 {
      AboveShrinks(n - 1);
      DoubleWithin(Above(n), Above(n - 1));
    } else {
      OnesAbove();
    }
  }

  lemma WithinTransitive(a: bv32, b: bv32, c: bv32)
    requires Within(a, b) && Within(b, c)
    ensures Within(a, c)
  {
  }

  lemma WithinSelf(a: bv32)
    ensures Within(a, a)
  {
  }

  lemma {:induction false} AboveMonotone(m: nat, n: nat)
    requires m <= n
    ensures Within(Above(n), Above(m))
    decreases n - m
  {
    hide Within, Above;
    if m < n {
      AboveMonotone(m + 1, n);
      AboveShrinks(m);
      WithinTransitive(Above(n), Above(m + 1), Above(m));
    } else {
      WithinSelf(Above(n));
    }
  }

  lemma AboveThirtyOne()
    ensures Above(31) == 0x8000_0000
  {
    assert Above(4) == 0xFFFF_FFF0;
    assert Above(8) == 0xFFFF_FF00;
    assert Above(12) == 0xFFFF_F000;
    assert Above(16) == 0xFFFF_0000;
    assert Above(20) == 0xFFF0_0000;
    assert Above(24) == 0xFF00_0000;
    assert Above(28) == 0xF000_0000;
  }

  lemma Unpack(b: bool, w: bv32, m: bv32)
    requires Apart(w, m) && Within(0x8000_0000, m)
    ensures Odd(Xor(BitWord(b), Double(w))) == b && Half(Xor(BitWord(b), Double(w))) == w
  {
  }

  /** The first bit and the rest of a window of at most 32 bits can be read off its word. */
  lemma {:induction false} WordHead(bits: seq<bool>)
    requires 0 < |bits| <= 32
    ensures Odd(Word(bits)) == bits[0] && Half(Word(bits)) == Word(bits[1..])
  {
    hide Odd, Half, Xor, Double, BitWord, Apart, Within, Above;
    WordBelow(bits[1..]);
    AboveMonotone(|bits| - 1, 31);
    AboveThirtyOne();
    Unpack(bits[0], Word(bits[1..]), Above(|bits| - 1));
  }

  /** Consuming a window is adding its word in front and shifting. */
  lemma {:induction false} RegisterWindow(c: bv32, bits: seq<bool>)
    requires |bits| <= 32
    ensures Register(c, bits) == Steps(Xor(c, Word(bits)), |bits|)
    decreases |bits|
  {
    hide Step, Xor, Half, Odd, Absorb, Word;
    if bits == [] {
      EmptyWord();
      XorZero(c);
    } else {
      WordHead(bits);
      AbsorbOne(c, Word(bits));
      RegisterWindow(Absorb(c, bits[0]), bits[1..]);
    }
  }

  lemma EmptyWord()
    ensures Word([]) == 0
  {
  }

  lemma ZeroParts()
    ensures !Odd(0) && Half(0) == 0
  {
  }

  lemma {:induction false} WordNotZero(bits: seq<bool>)
    requires |bits| <= 32 && true in bits
    ensures Word(bits) != 0
  {
    hide Odd, Half, Word;
    WordHead(bits);
    ZeroParts();
    if !bits[0] {
      assert true in bits[1..];
      WordNotZero(bits[1..]);
    }
  }

  // -------------------------------------------------- the register forgets nothing

  /** The polynomial feeds back into the highest bit, so no shift loses a difference. */
  lemma StepNotZero(c: bv32)
    requires c != 0
    ensures Step(c) != 0
  {
  }

  lemma {:induction false} StepsNotZero(c: bv32, n: nat)
    requires c != 0
    ensures Steps(c, n) != 0
    decreases n
  {
    hide Step;
    if n > 0 {
      StepNotZero(c);
      StepsNotZero(Step(c), n - 1);
    }
  }

  lemma AbsorbFalse(c: bv32)
    ensures Absorb(c, false) == Step(c) && Step(0) == 0
  {
  }

  lemma {:induction false} RegisterZeros(c: bv32, bits: seq<bool>)
    requires true !in bits
    ensures Register(c, bits) == 0 <==> c == 0
    decreases |bits|
  {
    hide Step, Absorb;
    if bits != [] {
      AbsorbFalse(c);
      if c != 0 {
        StepNotZero(c);
      }
      RegisterZeros(Absorb(c, bits[0]), bits[1..]);
    }
  }

  // ------------------------------------------------------ bits of a message

  lemma WordFromParts(w: bv32, v: bv32)
    requires Odd(w) == Odd(v) && Half(w) == Half(v)
    ensures w == v
  {
  }

  lemma {:induction false} WordBitsInjective(w: bv32, v: bv32, n: nat)
    requires WordBits(w, n) == WordBits(v, n) && Halves(w, n) == Halves(v, n)
    ensures w == v
    decreases n
  {
    hide Odd, Half;
    if n > 0 {
      assert WordBits(w, n)[0] == Odd(w) && WordBits(v, n)[0] == Odd(v);
      assert WordBits(w, n)[1..] == WordBits(Half(w), n - 1);
      assert WordBits(v, n)[1..] == WordBits(Half(v), n - 1);
      WordBitsInjective(Half(w), Half(v), n - 1);
      WordFromParts(w, v);
    }
  }

  lemma ByteOfWord(a: bv8, b: bv8)
    requires a as bv32 == b as bv32
    ensures a == b
  {
  }

  lemma {:induction false} BitsInjective(a: seq<bv8>, b: seq<bv8>)
    requires |a| == |b| && Bits(a) == Bits(b)
    ensures a == b
  {
    hide WordBits, Halves;
    if a != [] {
      assert Bits(a)[..8] == ByteBits(a[0]) && Bits(a)[8..] == Bits(a[1..]);
      assert Bits(b)[..8] == ByteBits(b[0]) && Bits(b)[8..] == Bits(b[1..]);
      ByteEnds(a[0]);
      ByteEnds(b[0]);
      WordBitsInjective(a[0] as bv32, b[0] as bv32, 8);
      ByteOfWord(a[0], b[0]);
      BitsInjective(a[1..], b[1..]);
    }
  }

  // ------------------------------------------------------------- the result

  lemma ComplementInjective(a: bv32, b: bv32)
    requires Complement(a) == Complement(b)
    ensures a == b
  {
  }

  lemma {:induction false} RegisterThirds(e: seq<bool>, s: nat, t: nat)
    requires s <= t <= |e|
    ensures Register(0, e) == Register(Register(Register(0, e[..s]), e[s..t]), e[t..])
  {
    hide Register;
    assert e == e[..s] + e[s..t] + e[t..];
    RegisterAppend(0, e[..s] + e[s..t], e[t..]);
    RegisterAppend(0, e[..s], e[s..t]);
  }

  /** A run of bits whose set bits lie within 32 places never leaves the register at zero. */
  lemma {:induction false} BurstMoves(e: seq<bool>, start: nat)
    requires true in e
    requires forall i :: 0 <= i < |e| && e[i] ==> start <= i < start + 32
    ensures Register(0, e) != 0
  {
    hide Register, Xor, Steps, Word;
    var i :| 0 <= i < |e| && e[i];
    var end := if start + 32 < |e| then start + 32 else |e|;
    var w := e[start..end];
    assert w[i - start];
    RegisterThirds(e, start, end);
    RegisterZeros(0, e[..start]);
    RegisterWindow(0, w);
    WordNotZero(w);
    XorZero(Word(w));
    StepsNotZero(Word(w), |w|);
    RegisterZeros(Steps(Word(w), |w|), e[end..]);
  }

  /** Bursts: different messages of one length whose differing bits all lie in a window of 32
      bits, in the order the register consumes them, have different CRCs, whatever value both
      are continued from. */
  lemma {:induction false} BurstDetected(crc: bv32, a: seq<bv8>, b: seq<bv8>, start: nat)
    requires |a| == |b| && a != b
    requires forall i :: 0 <= i < 8 * |a| && Bits(a)[i] != Bits(b)[i] ==> start <= i < start + 32
    ensures Crc(crc, a) != Crc(crc, b)
  {
    hide Bits, Register, Complement, Xor;
    var x, y, c := Bits(a), Bits(b), Complement(crc);
    if x == y {
      BitsInjective(a, b);
    }
    var i :| 0 <= i < |x| && x[i] != y[i];
    assert Diff(x, y)[i];
    BurstMoves(Diff(x, y), start);
    RegisterXor(c, c, x, y);
    XorZero(c);
    XorCancels(Register(c, x), Register(c, y));
    if Crc(crc, a) == Crc(crc, b) {
      ComplementInjective(Register(c, x), Register(c, y));
    }
  }

  /** A one and then the polynomial: 33 bits that take the register from zero back to zero. */
  function Lost(): (r: seq<bool>)
    ensures |r| == 33 && r[0]
  {
    [true] + WordBits(POLY, 32)
  }

  lemma {:induction false} LostIsLost()
    ensures Register(0, Lost()) == 0
  {
    hide Xor, Steps, WordBits, Absorb, Halves, Odd;
    assert Lost()[1..] == WordBits(POLY, 32);
    FirstBit();
    AbsorbMany(POLY, POLY, 32);
    XorZero(POLY);
    ZeroSteps(32);
    PolyEnds();
    XorZero(Register(POLY, WordBits(POLY, 32)));
  }

  /** The window cannot be wider: messages that differ in just these 33 bits, anywhere, have
      the same CRC whatever they continue from. */
  lemma {:induction false} BurstBoundIsTight(crc: bv32, a: seq<bv8>, b: seq<bv8>, start: nat)
    requires |a| == |b| && start + 33 <= 8 * |a|
    requires forall i :: 0 <= i < 8 * |a| ==>
               (Bits(a)[i] != Bits(b)[i] <==> start <= i < start + 33 && Lost()[i - start])
    ensures a != b && Crc(crc, a) == Crc(crc, b)
  {
    hide Bits, Register, Complement, Xor, Lost;
    var x, y, c := Bits(a), Bits(b), Complement(crc);
    var e := Diff(x, y);
    assert Bits(a)[start] != Bits(b)[start];
    assert e[start..start + 33] == Lost();
    RegisterThirds(e, start, start + 33);
    RegisterZeros(0, e[..start]);
    LostIsLost();
    RegisterZeros(0, e[start + 33..]);
    RegisterXor(c, c, x, y);
    XorZero(c);
    XorCancels(Register(c, x), Register(c, y));
  }

  /** Two such messages: five bytes, zeros against the pattern and seven zero bits. */
  lemma {:induction false} BurstBoundExample(crc: bv32)
    ensures Crc(crc, [0, 0, 0, 0, 0]) == Crc(crc, [0x41, 0x06, 0x71, 0xDB, 0x01])
  {
    hide Bits, Crc, Register;
    PatternLost();
    ZeroBits([0, 0, 0, 0, 0]);
    AgainstZeros(crc, [0, 0, 0, 0, 0], [0x41, 0x06, 0x71, 0xDB, 0x01]);
  }

  lemma {:induction false} AgainstZeros(crc: bv32, a: seq<bv8>, b: seq<bv8>)
    requires |a| == |b| && true !in Bits(a) && Register(0, Bits(b)) == 0
    ensures Crc(crc, a) == Crc(crc, b)
  {
    hide Bits, Register, Complement, Xor;
    var c, x, y := Complement(crc), Bits(a), Bits(b);
    assert Diff(x, y) == y;
    RegisterXor(c, c, x, y);
    XorZero(c);
    XorCancels(Register(c, x), Register(c, y));
  }

  lemma {:induction false} ZeroBits(a: seq<bv8>)
    requires forall i :: 0 <= i < |a| ==> a[i] == 0
    ensures true !in Bits(a)
  {
    if a != [] {
      ZeroWord(8);
      ZeroBits(a[1..]);
    }
  }

  lemma {:induction false} ZeroWord(n: nat)
    ensures true !in WordBits(0, n)
  {
    if n > 0 {
      assert Half(0) == 0 && !Odd(0);
      ZeroWord(n - 1);
    }
  }

  lemma {:induction false} PatternLost()
    ensures Register(0, Bits([0x41, 0x06, 0x71, 0xDB, 0x01])) == 0
  {
    EmptyBits();
    PatternSteps();
    hide Register, Bits, Step8, Xor;
    ByteAfter(0, [], 0x41);
    ByteAfter(0, [0x41], 0x06);
    ByteAfter(0, [0x41, 0x06], 0x71);
    ByteAfter(0, [0x41, 0x06, 0x71], 0xDB);
    ByteAfter(0, [0x41, 0x06, 0x71, 0xDB], 0x01);
    assert [] + [0x41 as bv8] == [0x41];
    assert [0x41, 0x06 as bv8] == [0x41] + [0x06];
    assert [0x41, 0x06, 0x71 as bv8] == [0x41, 0x06] + [0x71];
    assert [0x41, 0x06, 0x71, 0xDB as bv8] == [0x41, 0x06, 0x71] + [0xDB];
    assert [0x41, 0x06, 0x71, 0xDB, 0x01 as bv8] == [0x41, 0x06, 0x71, 0xDB] + [0x01];
  }

  lemma {:induction false} ByteAfter(c: bv32, a: seq<bv8>, b: bv8)
    ensures Register(c, Bits(a + [b])) == Step8(Xor(Register(c, Bits(a)), b as bv32))
  {
    hide Step8, Xor, Register, Bits, TableStep;
    OneMoreByte(c, a, b);
    TableStepIs(Register(c, Bits(a)), b);
  }

  lemma PatternSteps()
    ensures Step8(Xor(0, 0x41)) == 0x01DB_7106 && Step8(Xor(0x01DB_7106, 0x06)) == 0x0001_DB71 && Step8(Xor(0x0001_DB71, 0x71)) == 0x0000_01DB
    ensures Step8(Xor(0x0000_01DB, 0xDB)) == 0x0000_0001 && Step8(Xor(0x0000_0001, 0x01)) == 0
  {
  }

  lemma FirstBit()
    ensures Absorb(0, true) == POLY
  {
  }

  lemma {:induction false} ZeroSteps(n: nat)
    ensures Steps(0, n) == 0
  {
    if n > 0 {
      ZeroSteps(n - 1);
    }
  }

  lemma {:induction false} HalvesAdd(w: bv32, m: nat, n: nat)
    ensures Halves(w, m + n) == Halves(Halves(w, m), n)
    decreases m
  {
    hide Half;
    if m > 0 {
      HalvesAdd(Half(w), m - 1, n);
    }
  }

  lemma HalvesShift(w: bv32)
    ensures Halves(w, 8) == ShiftByte(w)
  {
  }

  lemma {:induction false} PolyEnds()
    ensures Halves(POLY, 32) == 0
  {
    hide Halves;
    var w1, w2, w3 := ShiftByte(POLY), ShiftByte(ShiftByte(POLY)), ShiftByte(ShiftByte(ShiftByte(POLY)));
    HalvesAdd(POLY, 8, 24);
    HalvesAdd(w1, 8, 16);
    HalvesAdd(w2, 8, 8);
    HalvesShift(POLY);
    HalvesShift(w1);
    HalvesShift(w2);
    HalvesShift(w3);
  }
}
