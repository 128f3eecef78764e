/** The machine word of src/utilities/app_json_encode.c: one group of three bits for each
    frame, the innermost in the low bits. */
module EncoderWord {
  import opened JsonTree
  import opened EncoderStack

  const ARRAY_BIT: bv64 := 1
  const OBJECT_BIT: bv64 := 2
  const AUTO_BIT: bv64 := 4

  function KindBit(k: Kind): bv64 { if k == Array then ARRAY_BIT else OBJECT_BIT }

  function Code(fr: Frame): bv64 {
    match fr.mark
    case Plain => KindBit(fr.kind)
    case Auto => AUTO_BIT
    case Wrapped => SetBits(AUTO_BIT, KindBit(fr.kind))
  }

  /** The groups: bit 0 for an array, bit 1 for an object, bit 2 for an object put around a keyed
      item; a keyed container inside such an object shares its group. */
  lemma CodesAre(key: string, kind: Kind, done: seq<Member>)
    ensures Code(Frame(Plain, key, Array, done)) == 1 && Code(Frame(Plain, key, Object, done)) == 2
    ensures Code(Frame(Auto, key, kind, done)) == 4
    ensures Code(Frame(Wrapped, key, Array, done)) == 5 && Code(Frame(Wrapped, key, Object, done)) == 6
  {
  }

  // The operations on words have names, so that a proof sees either the bits or the stack.

  function Shift(w: bv64): bv64 { w << 3 }

  function SetBits(w: bv64, bits: bv64): bv64 { w | bits }

  function PushGroup(w: bv64, code: bv64): bv64 { SetBits(Shift(w), code) }

  function PopGroup(w: bv64): bv64 { w >> 3 }

  function LowGroup(w: bv64): bv64 { w & 7 }

  predicate Within(a: bv64, b: bv64) { a & b == a }

  predicate Apart(a: bv64, b: bv64) { a & b == 0 }

  /** The packed stack. */
  function Word(open: seq<Frame>): bv64 {
    if open == [] then 0 else PushGroup(Word(Up(open)), Code(Top(open)))
  }

  /** The bits a stack of n frames leaves clear. */
  function Clear(n: nat): bv64 {
    if n == 0 then 0xFFFF_FFFF_FFFF_FFFF else Shift(Clear(n - 1))
  }

  lemma ShiftWithin(a: bv64, b: bv64)
    requires Within(a, b)
    ensures Within(Shift(a), Shift(b))
  {
  }

  lemma ShiftOnes()
    ensures Within(Clear(1), Clear(0))
  {
  }

  lemma {:induction false} ClearShrinks(n: nat)
    ensures Within(Clear(n + 1), Clear(n))
  {
    hide Within, Shift;
    if n > 0 {
      ClearShrinks(n - 1);
      ShiftWithin(Clear(n), Clear(n - 1));
    } else {
      ShiftOnes();
    }
  }

  lemma WithinTransitive(a: bv64, b: bv64, c: bv64)
    requires Within(a, b) && Within(b, c)
    ensures Within(a, c)
  {
  }

  lemma WithinSelf(a: bv64)
    ensures Within(a, a)
  {
  }

  lemma {:induction false} ClearMonotone(m: nat, n: nat)
    requires m <= n
    ensures Within(Clear(n), Clear(m))
    decreases n - m
  {
    hide Clear, Within;
    if m < n {
      ClearMonotone(m + 1, n);
      ClearShrinks(m);
      WithinTransitive(Clear(n), Clear(m + 1), Clear(m));
    } else {
      WithinSelf(Clear(n));
    }
  }

  /** Twenty frames leave the four highest bits clear. */
  lemma ClearTwenty()
    ensures Clear(20) == 0xF000_0000_0000_0000
  {
    assert Clear(2) == 0xFFFF_FFFF_FFFF_FFC0;
    assert Clear(4) == 0xFFFF_FFFF_FFFF_F000;
    assert Clear(6) == 0xFFFF_FFFF_FFFC_0000;
    assert Clear(8) == 0xFFFF_FFFF_FF00_0000;
    assert Clear(10) == 0xFFFF_FFFF_C000_0000;
    assert Clear(12) == 0xFFFF_FFF0_0000_0000;
    assert Clear(14) == 0xFFFF_FC00_0000_0000;
    assert Clear(16) == 0xFFFF_0000_0000_0000;
    assert Clear(18) == 0xFFC0_0000_0000_0000;
  }

  predicate GroupCode(c: bv64) { c & 7 == c && c != 0 }

  lemma CodeFits(fr: Frame)
    ensures GroupCode(Code(fr))
  {
  }

  lemma PushKeepsApart(w: bv64, code: bv64, clear: bv64)
    requires Apart(w, clear) && GroupCode(code)
    ensures Apart(PushGroup(w, code), Shift(clear))
  {
  }

  lemma ZeroApart(a: bv64)
    ensures Apart(0, a)
  {
  }

  lemma {:induction false} WordIsClear(open: seq<Frame>)
    ensures Apart(Word(open), Clear(|open|))
  {
    hide Code, Apart, PushGroup, GroupCode, Shift, SetBits;
    if open == [] {
      ZeroApart(Clear(0));
    } else {
      WordIsClear(Up(open));
      CodeFits(Top(open));
      PushKeepsApart(Word(Up(open)), Code(Top(open)), Clear(|open| - 1));
    }
  }

  lemma Unshift(w: bv64, code: bv64, clear: bv64)
    requires Apart(w, clear) && Within(0xF000_0000_0000_0000, clear) && GroupCode(code)
    ensures PopGroup(PushGroup(w, code)) == w && LowGroup(PushGroup(w, code)) == code
  {
  }

  /** A push never loses a level: with at most twenty frames below it, the new group can be
      shifted out again and the word below is what it was. */
  lemma {:induction false} PushLosesNothing(open: seq<Frame>)
    requires open != [] && |open| <= MAX_DEPTH
    ensures PopGroup(Word(open)) == Word(Up(open)) && LowGroup(Word(open)) == Code(Top(open))
  {
    hide Code, Clear, Apart, Within, PushGroup, PopGroup, LowGroup, GroupCode;
    var up := Up(open);
    WordIsClear(up);
    ClearMonotone(|up|, 20);
    ClearTwenty();
    CodeFits(Top(open));
    Unshift(Word(up), Code(Top(open)), Clear(|up|));
  }

  /** No group is zero, so the word is zero only when nothing is open. */
  lemma WordZero(open: seq<Frame>)
    requires |open| <= MAX_DEPTH
    ensures Word(open) == 0 <==> open == []
  {
  }

  /** The tests the encoder makes on the word. */
  predicate Has(w: bv64, bit: bv64) { w & bit != 0 }

  /** The bit of a group that stands for position i: array, object, added object. */
  function BitAt(i: nat): bv64 { if i == 0 then ARRAY_BIT else if i == 1 then OBJECT_BIT else AUTO_BIT }

  /** Whether a frame's group has the bit at position i. */
  predicate GroupHas(fr: Frame, i: nat) {
    if i == 0 then fr.mark != Auto && fr.kind == Array
    else if i == 1 then fr.mark != Auto && fr.kind == Object
    else fr.mark != Plain
  }

  /** Testing a bit of the word is a test on the innermost frame. */
  lemma WordTest(open: seq<Frame>, i: nat)
    requires |open| <= MAX_DEPTH && i < 3
    ensures Has(Word(open), BitAt(i)) <==> open != [] && GroupHas(Top(open), i)
  {
  }

  lemma PushWord(open: seq<Frame>, fr: Frame)
    requires fr.mark != Wrapped
    ensures Word(open + [fr]) == SetBits(Shift(Word(open)), if fr.mark == Auto then AUTO_BIT else KindBit(fr.kind))
  {
  }

  /** A container inside an added object shares its group: no shift. */
  lemma WrapWord(open: seq<Frame>, auto: Frame, fr: Frame)
    requires auto.mark == Auto && fr.mark == Wrapped
    ensures Word(open + [fr]) == SetBits(Word(open + [auto]), KindBit(fr.kind))
  {
  }

  /** Items do not show in the word. */
  lemma {:induction false} WordAddItem(s: State, m: Member)
    ensures Word(AddItem(s, m).open) == Word(s.open)
  {
    hide PushGroup;
    if s.open != [] {
      DepthPush(Up(s.open), Top(s.open).(done := Top(s.open).done + [m]));
    }
  }

  /** Ending the frame on top shifts its group out. */
  lemma {:induction false} WordCloseTop(s: State)
    requires s.open != [] && |s.open| <= MAX_DEPTH
    ensures Word(CloseTop(s).open) == PopGroup(Word(s.open))
  {
    hide Word, PopGroup, LowGroup;
    CloseTopIs(s);
    WordAddItem(s.(open := Up(s.open)), TopMember(s));
    PushLosesNothing(s.open);
  }

  function Bit(w: bv64): nat { if w & 1 != 0 then 1 else 0 }

  function Half(w: bv64): bv64 { w >> 1 }

  /** The number of bits set, as the depth loop counts them. */
  function Bits(w: bv64): nat
    decreases w
  {
    if w == 0 then 0
    else
      HalfShrinks(w);
      Bit(w) + Bits(Half(w))
  }

  lemma HalfShrinks(w: bv64)
    requires w != 0
    ensures Half(w) < w
  {
  }

  lemma BitsStep(w: bv64)
    ensures Bits(w) == Bit(w) + Bits(Half(w))
  {
  }

  /** Counting bits counts containers, not groups. */
  lemma {:induction false} BitsAreDepth(open: seq<Frame>)
    requires |open| <= MAX_DEPTH
    ensures Bits(Word(open)) == Depth(open)
  {
    hide Bit, Half, Code, PushGroup, PopGroup, LowGroup, Levels;
    var w := Word(open);
    if open != [] {
      BitsAreDepth(Up(open));
      PushLosesNothing(open);
      BitsStep(w);
      BitsStep(Half(w));
      BitsStep(Half(Half(w)));
      GroupBits(w, Top(open));
    }
  }

  lemma GroupBits(w: bv64, fr: Frame)
    requires LowGroup(w) == Code(fr)
    ensures Half(Half(Half(w))) == PopGroup(w)
    ensures Bit(w) + Bit(Half(w)) + Bit(Half(Half(w))) == Levels(fr)
  {
  }

  /** app_json_encode_depth */
  method CountDepth(structs: bv64) returns (i: nat)
    ensures i == Bits(structs)
  {
    i := 0;
    var j := structs;
    while j != 0
      invariant i + Bits(j) == Bits(structs)
      decreases j
    {
      HalfShrinks(j);
      if j & 1 != 0 {
        i := i + 1;
      }
      j := j >> 1;
    }
  }
}
