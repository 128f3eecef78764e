/** The CRC of src/api/checksum/iot_checksum_crc32.c: the table-driven loop, the loop over a
    file, and the shift register of RFC 1952 section 8 that both stand for. */
module Crc32 {
  import opened Crc32Table

  // The operations on words have names, so that a proof sees either the bits or the algebra.

  function Xor(a: bv32, b: bv32): bv32 { a ^ b }

  function Half(c: bv32): bv32 { c >> 1 }

  predicate Odd(c: bv32) { c & 1 == 1 }

  function Even(c: bv32): bv32 { c & 0xFFFF_FFFE }

  function BitWord(b: bool): bv32 { if b then 1 else 0 }

  function Feedback(b: bool): bv32 { if b then POLY else 0 }

  // ------------------------------------------------------ the shift register

  function Absorb(c: bv32, bit: bool): bv32 { Step(Xor(c, BitWord(bit))) }

  /** The register after a run of message bits. */
  function Register(c: bv32, bits: seq<bool>): bv32
    decreases |bits|
  {
    if bits == [] then c else Register(Absorb(c, bits[0]), bits[1..])
  }

  /** The low n bits of a word, in the order the register consumes them: lowest first. */
  function WordBits(w: bv32, n: nat): (r: seq<bool>)
    ensures |r| == n
  {
    if n == 0 then [] else [Odd(w)] + WordBits(Half(w), n - 1)
  }

  function ByteBits(b: bv8): (r: seq<bool>)
    ensures |r| == 8
  {
    WordBits(b as bv32, 8)
  }

  function Bits(buf: seq<bv8>): (r: seq<bool>)
    ensures |r| == 8 * |buf|
  {
    if buf == [] then [] else ByteBits(buf[0]) + Bits(buf[1..])
  }

  function Complement(c: bv32): bv32 { !c }

  /** The CRC by definition: the register starts from the complement of the previous value,
      consumes the message bit by bit, and is complemented again. */
  function Crc(crc: bv32, buf: seq<bv8>): bv32 {
    Complement(Register(Complement(crc), Bits(buf)))
  }

  lemma {:induction false} RegisterAppend(c: bv32, a: seq<bool>, b: seq<bool>)
    ensures Register(c, a + b) == Register(Register(c, a), b)
    decreases |a|
  {
    hide Absorb;
    if a == [] {
      assert a + b == b;
    } else {
      assert (a + b)[1..] == a[1..] + b;
      RegisterAppend(Absorb(c, a[0]), a[1..], b);
    }
  }

  lemma {:induction false} BitsAppend(a: seq<bv8>, b: seq<bv8>)
    ensures Bits(a + b) == Bits(a) + Bits(b)
    decreases |a|
  {
    hide ByteBits;
    if a == [] {
      assert a + b == b;
    } else {
      assert (a + b)[1..] == a[1..] + b;
      BitsAppend(a[1..], b);
    }
  }

  // ---------------------------------------------------- algebra of the step

  lemma XorAssociates(a: bv32, b: bv32, c: bv32)
    ensures Xor(Xor(a, b), c) == Xor(a, Xor(b, c))
  {
  }

  lemma XorCommutes(a: bv32, b: bv32)
    ensures Xor(a, b) == Xor(b, a)
  {
  }

  lemma {:induction false} XorSwap(a: bv32, b: bv32, c: bv32, d: bv32)
    ensures Xor(Xor(a, b), Xor(c, d)) == Xor(Xor(a, c), Xor(b, d))
  {
    hide Xor;
    XorAssociates(a, b, Xor(c, d));
    XorAssociates(b, c, d);
    XorCommutes(b, c);
    XorAssociates(c, b, d);
    XorAssociates(a, c, Xor(b, d));
  }

  lemma XorZero(a: bv32)
    ensures Xor(a, 0) == a && Xor(0, a) == a && Xor(a, a) == 0
  {
  }

  lemma {:induction false} XorCancels(a: bv32, b: bv32)
    ensures Xor(a, b) == 0 <==> a == b
  {
    hide Xor;
    XorAssociates(a, b, b);
    XorZero(a);
    XorZero(b);
  }

  lemma StepParts(c: bv32)
    ensures Step(c) == Xor(Half(c), Feedback(Odd(c)))
  {
    if Odd(c) {
    } else {
      assert (c >> 1) ^ 0 == c >> 1;
    }
  }

  lemma PartsLinear(a: bv32, b: bv32)
    ensures Half(Xor(a, b)) == Xor(Half(a), Half(b))
    ensures Odd(Xor(a, b)) <==> Odd(a) != Odd(b)
  {
  }

  lemma FeedbackLinear(p: bool, q: bool)
    ensures Feedback(p != q) == Xor(Feedback(p), Feedback(q))
  {
  }

  /** The step is linear over exclusive or. */
  lemma {:induction false} StepLinear(a: bv32, b: bv32)
    ensures Step(Xor(a, b)) == Xor(Step(a), Step(b))
  {
    hide Step, Xor, Half, Odd, Feedback;
    StepParts(a);
    StepParts(b);
    StepParts(Xor(a, b));
    PartsLinear(a, b);
    FeedbackLinear(Odd(a), Odd(b));
    XorSwap(Half(a), Feedback(Odd(a)), Half(b), Feedback(Odd(b)));
  }

  /** n shifts without input. */
  function Steps(c: bv32, n: nat): bv32
    decreases n
  {
    if n == 0 then c else Steps(Step(c), n - 1)
  }

  lemma {:induction false} StepsLinear(a: bv32, b: bv32, n: nat)
    ensures Steps(Xor(a, b), n) == Xor(Steps(a, n), Steps(b, n))
    decreases n
  {
    hide Step, Xor;
    if n > 0 {
      StepLinear(a, b);
      StepsLinear(Step(a), Step(b), n - 1);
    }
  }

  lemma EvenOdd(w: bv32)
    ensures w == Xor(BitWord(Odd(w)), Even(w)) && Step(Even(w)) == Half(w)
  {
  }

  /** A word added in front and shifted once is its low bit absorbed, with the rest of the
      word still to come. */
  lemma {:induction false} AbsorbOne(c: bv32, w: bv32)
    ensures Step(Xor(c, w)) == Xor(Absorb(c, Odd(w)), Half(w))
  {
    hide Step, Xor, Half, Odd, Even, BitWord;
    EvenOdd(w);
    XorAssociates(c, BitWord(Odd(w)), Even(w));
    StepLinear(Xor(c, BitWord(Odd(w))), Even(w));
  }

  function Halves(w: bv32, n: nat): bv32
    decreases n
  {
    if n == 0 then w else Halves(Half(w), n - 1)
  }

  /** Absorbing n bits one at a time, against adding the word and shifting n times. */
  lemma {:induction false} AbsorbMany(c: bv32, w: bv32, n: nat)
    ensures Steps(Xor(c, w), n) == Xor(Register(c, WordBits(w, n)), Halves(w, n))
    decreases n
  {
    hide Step, Xor, Half, Odd, Absorb;
    if n > 0 {
      AbsorbOne(c, w);
      assert WordBits(w, n)[1..] == WordBits(Half(w), n - 1);
      AbsorbMany(Absorb(c, Odd(w)), Half(w), n - 1);
    }
  }

  // ------------------------------------------------- the table-driven loop

  lemma StepsEight(c: bv32)
    ensures Steps(c, 8) == Step8(c)
  {
  }

  lemma ByteEnds(b: bv8)
    ensures Halves(b as bv32, 8) == 0
  {
  }

  /** Consuming a byte bit by bit is eight shifts with the byte added in front. */
  lemma {:induction false} ByteStep(c: bv32, b: bv8)
    ensures Register(c, ByteBits(b)) == Step8(Xor(c, b as bv32))
  {
    hide Step8, Xor, Register;
    AbsorbMany(c, b as bv32, 8);
    StepsEight(Xor(c, b as bv32));
    ByteEnds(b);
    XorZero(Register(c, ByteBits(b)));
  }

  function LowByte(c: bv32): bv32 { c & 0xFF }

  function HighBytes(c: bv32): bv32 { c & 0xFFFF_FF00 }

  function ShiftByte(c: bv32): bv32 { c >> 8 }

  lemma LowByteIsIndex(c: bv32)
    ensures LowByte(c) < 256
  {
  }

  /** The loop body: crc32_tab[(crc ^ b) & 0xFF] ^ (crc >> 8) */
  function TableStep(crc: bv32, b: bv8): bv32 {
    LowByteIsIndex(Xor(crc, b as bv32));
    Xor(Lookup(LowByte(Xor(crc, b as bv32))), ShiftByte(crc))
  }

  lemma HighByteShifts(h: bv32)
    ensures Step8(HighBytes(h)) == ShiftByte(h)
  {
  }

  lemma SplitWord(y: bv32)
    ensures y == Xor(LowByte(y), HighBytes(y))
  {
  }

  lemma ByteDoesNotReach(crc: bv32, b: bv8)
    ensures ShiftByte(Xor(crc, b as bv32)) == ShiftByte(crc)
  {
  }

  /** One table step is eight shifts of the register with the byte added in front. */
  lemma {:induction false} TableStepIs(crc: bv32, b: bv8)
    ensures TableStep(crc, b) == Step8(Xor(crc, b as bv32))
  {
    hide Step8, Xor, LowByte, HighBytes, ShiftByte, Lookup, Steps;
    var y := Xor(crc, b as bv32);
    SplitWord(y);
    StepsLinear(LowByte(y), HighBytes(y), 8);
    StepsEight(y);
    StepsEight(LowByte(y));
    StepsEight(HighBytes(y));
    HighByteShifts(y);
    ByteDoesNotReach(crc, b);
    LowByteIsIndex(y);
    TableIsSteps(LowByte(y));
  }

  /** iot_checksum_crc32_calculate */
  method Calculate(crc0: bv32, p: array<bv8>, size: nat) returns (crc: bv32)
    requires size <= p.Length
    ensures crc == Crc(crc0, p[..size])
  {
    hide TableStep, Register, Bits, Complement, Step8, Xor;
    crc := Complement(crc0);
    var i := 0;
    EmptyBits();
    while i < size
      invariant i <= size
      invariant crc == Register(Complement(crc0), Bits(p[..i]))
    {
      OneMoreByte(Complement(crc0), p[..i], p[i]);
      assert p[..i] + [p[i]] == p[..i + 1];
      crc := TableStep(crc, p[i]);
      i := i + 1;
    }
    crc := Complement(crc);
  }

  lemma EmptyBits()
    ensures forall c, p: seq<bv8> :: |p| == 0 ==> Register(c, Bits(p)) == c
  {
  }

  lemma {:induction false} OneMoreByte(c: bv32, a: seq<bv8>, b: bv8)
    ensures Register(c, Bits(a + [b])) == TableStep(Register(c, Bits(a)), b)
  {
    hide TableStep, Step8, Xor, ByteBits;
    BitsAppend(a, [b]);
    assert [b][1..] == [] && Bits([b]) == ByteBits(b) + [];
    assert ByteBits(b) + [] == ByteBits(b);
    RegisterAppend(c, Bits(a), ByteBits(b));
    ByteStep(Register(c, Bits(a)), b);
    TableStepIs(Register(c, Bits(a)), b);
  }

  lemma ComplementTwice(c: bv32)
    ensures Complement(Complement(c)) == c
  {
  }

  /** Feeding a message in two parts is feeding it whole. */
  lemma {:induction false} CrcAppend(crc: bv32, a: seq<bv8>, b: seq<bv8>)
    ensures Crc(Crc(crc, a), b) == Crc(crc, a + b)
  {
    hide Complement, Register, Bits;
    ComplementTwice(Register(Complement(crc), Bits(a)));
    BitsAppend(a, b);
    RegisterAppend(Complement(crc), Bits(a), Bits(b));
  }

  function Flatten(chunks: seq<seq<bv8>>): seq<bv8> {
    if chunks == [] then [] else chunks[0] + Flatten(chunks[1..])
  }

  lemma {:induction false} FlattenAppend(a: seq<seq<bv8>>, b: seq<bv8>)
    ensures Flatten(a + [b]) == Flatten(a) + b
  {
    if a == [] {
      assert a + [b] == [b];
      assert b + [] == b;
    } else {
      assert (a + [b])[1..] == a[1..] + [b];
      FlattenAppend(a[1..], b);
    }
  }

  /** The reading loop of iot_checksum_crc32_file_get. `chunks` are what the successive
      reads return before the end of the file, in any lengths the buffer allows. */
  method FileChecksum(chunks: seq<seq<bv8>>) returns (crc32: bv32)
    requires forall c <- chunks :: 0 < |c| <= 1024
    ensures crc32 == Crc(0, Flatten(chunks))
  {
    hide Crc;
    crc32 := 0;
    var data := new bv8[1024];
    NothingRead();
    for i := 0 to |chunks|
      invariant crc32 == Crc(0, Flatten(chunks[..i]))
    {
      var bytes := |chunks[i]|;
      forall j | 0 <= j < bytes {
        data[j] := chunks[i][j];
      }
      assert data[..bytes] == chunks[i];
      crc32 := Calculate(crc32, data, bytes);
      CrcAppend(0, Flatten(chunks[..i]), chunks[i]);
      FlattenAppend(chunks[..i], chunks[i]);
      assert chunks[..i] + [chunks[i]] == chunks[..i + 1];
    }
    assert chunks[..|chunks|] == chunks;
  }

  lemma NothingRead()
    ensures Crc(0, []) == 0
  {
  }
}
