/** The feedback table of src/api/checksum/iot_checksum_crc32.c, sixteen entries to a row,
    and the proof that each entry is eight shift/xor steps on its own index. */
module Crc32Table {
  const POLY: bv32 := 0xEDB8_8320

  /** One shift of the register: the bit shifted out, if set, feeds the polynomial back. */
  function Step(c: bv32): bv32 { if c & 1 == 1 then (c >> 1) ^ POLY else c >> 1 }

  function Step8(c: bv32): bv32 { Step(Step(Step(Step(Step(Step(Step(Step(c)))))))) }

  const ROW0: seq<bv32> := [
    0x0000_0000, 0x7707_3096, 0xEE0E_612C, 0x9909_51BA, 0x076D_C419, 0x706A_F48F, 0xE963_A535, 0x9E64_95A3,
    0x0EDB_8832, 0x79DC_B8A4, 0xE0D5_E91E, 0x97D2_D988, 0x09B6_4C2B, 0x7EB1_7CBD, 0xE7B8_2D07, 0x90BF_1D91]

  const ROW1: seq<bv32> := [
    0x1DB7_1064, 0x6AB0_20F2, 0xF3B9_7148, 0x84BE_41DE, 0x1ADA_D47D, 0x6DDD_E4EB, 0xF4D4_B551, 0x83D3_85C7,
    0x136C_9856, 0x646B_A8C0, 0xFD62_F97A, 0x8A65_C9EC, 0x1401_5C4F, 0x6306_6CD9, 0xFA0F_3D63, 0x8D08_0DF5]

  const ROW2: seq<bv32> := [
    0x3B6E_20C8, 0x4C69_105E, 0xD560_41E4, 0xA267_7172, 0x3C03_E4D1, 0x4B04_D447, 0xD20D_85FD, 0xA50A_B56B,
    0x35B5_A8FA, 0x42B2_986C, 0xDBBB_C9D6, 0xACBC_F940, 0x32D8_6CE3, 0x45DF_5C75, 0xDCD6_0DCF, 0xABD1_3D59]

  const ROW3: seq<bv32> := [
    0x26D9_30AC, 0x51DE_003A, 0xC8D7_5180, 0xBFD0_6116, 0x21B4_F4B5, 0x56B3_C423, 0xCFBA_9599, 0xB8BD_A50F,
    0x2802_B89E, 0x5F05_8808, 0xC60C_D9B2, 0xB10B_E924, 0x2F6F_7C87, 0x5868_4C11, 0xC161_1DAB, 0xB666_2D3D]

  const ROW4: seq<bv32> := [
    0x76DC_4190, 0x01DB_7106, 0x98D2_20BC, 0xEFD5_102A, 0x71B1_8589, 0x06B6_B51F, 0x9FBF_E4A5, 0xE8B8_D433,
    0x7807_C9A2, 0x0F00_F934, 0x9609_A88E, 0xE10E_9818, 0x7F6A_0DBB, 0x086D_3D2D, 0x9164_6C97, 0xE663_5C01]

  const ROW5: seq<bv32> := [
    0x6B6B_51F4, 0x1C6C_6162, 0x8565_30D8, 0xF262_004E, 0x6C06_95ED, 0x1B01_A57B, 0x8208_F4C1, 0xF50F_C457,
    0x65B0_D9C6, 0x12B7_E950, 0x8BBE_B8EA, 0xFCB9_887C, 0x62DD_1DDF, 0x15DA_2D49, 0x8CD3_7CF3, 0xFBD4_4C65]

  const ROW6: seq<bv32> := [
    0x4DB2_6158, 0x3AB5_51CE, 0xA3BC_0074, 0xD4BB_30E2, 0x4ADF_A541, 0x3DD8_95D7, 0xA4D1_C46D, 0xD3D6_F4FB,
    0x4369_E96A, 0x346E_D9FC, 0xAD67_8846, 0xDA60_B8D0, 0x4404_2D73, 0x3303_1DE5, 0xAA0A_4C5F, 0xDD0D_7CC9]

  const ROW7: seq<bv32> := [
    0x5005_713C, 0x2702_41AA, 0xBE0B_1010, 0xC90C_2086, 0x5768_B525, 0x206F_85B3, 0xB966_D409, 0xCE61_E49F,
    0x5EDE_F90E, 0x29D9_C998, 0xB0D0_9822, 0xC7D7_A8B4, 0x59B3_3D17, 0x2EB4_0D81, 0xB7BD_5C3B, 0xC0BA_6CAD]

  const ROW8: seq<bv32> := [
    0xEDB8_8320, 0x9ABF_B3B6, 0x03B6_E20C, 0x74B1_D29A, 0xEAD5_4739, 0x9DD2_77AF, 0x04DB_2615, 0x73DC_1683,
    0xE363_0B12, 0x9464_3B84, 0x0D6D_6A3E, 0x7A6A_5AA8, 0xE40E_CF0B, 0x9309_FF9D, 0x0A00_AE27, 0x7D07_9EB1]

  const ROW9: seq<bv32> := [
    0xF00F_9344, 0x8708_A3D2, 0x1E01_F268, 0x6906_C2FE, 0xF762_575D, 0x8065_67CB, 0x196C_3671, 0x6E6B_06E7,
    0xFED4_1B76, 0x89D3_2BE0, 0x10DA_7A5A, 0x67DD_4ACC, 0xF9B9_DF6F, 0x8EBE_EFF9, 0x17B7_BE43, 0x60B0_8ED5]

  const ROW10: seq<bv32> := [
    0xD6D6_A3E8, 0xA1D1_937E, 0x38D8_C2C4, 0x4FDF_F252, 0xD1BB_67F1, 0xA6BC_5767, 0x3FB5_06DD, 0x48B2_364B,
    0xD80D_2BDA, 0xAF0A_1B4C, 0x3603_4AF6, 0x4104_7A60, 0xDF60_EFC3, 0xA867_DF55, 0x316E_8EEF, 0x4669_BE79]

  const ROW11: seq<bv32> := [
    0xCB61_B38C, 0xBC66_831A, 0x256F_D2A0, 0x5268_E236, 0xCC0C_7795, 0xBB0B_4703, 0x2202_16B9, 0x5505_262F,
    0xC5BA_3BBE, 0xB2BD_0B28, 0x2BB4_5A92, 0x5CB3_6A04, 0xC2D7_FFA7, 0xB5D0_CF31, 0x2CD9_9E8B, 0x5BDE_AE1D]

  const ROW12: seq<bv32> := [
    0x9B64_C2B0, 0xEC63_F226, 0x756A_A39C, 0x026D_930A, 0x9C09_06A9, 0xEB0E_363F, 0x7207_6785, 0x0500_5713,
    0x95BF_4A82, 0xE2B8_7A14, 0x7BB1_2BAE, 0x0CB6_1B38, 0x92D2_8E9B, 0xE5D5_BE0D, 0x7CDC_EFB7, 0x0BDB_DF21]

  const ROW13: seq<bv32> := [
    0x86D3_D2D4, 0xF1D4_E242, 0x68DD_B3F8, 0x1FDA_836E, 0x81BE_16CD, 0xF6B9_265B, 0x6FB0_77E1, 0x18B7_4777,
    0x8808_5AE6, 0xFF0F_6A70, 0x6606_3BCA, 0x1101_0B5C, 0x8F65_9EFF, 0xF862_AE69, 0x616B_FFD3, 0x166C_CF45]

  const ROW14: seq<bv32> := [
    0xA00A_E278, 0xD70D_D2EE, 0x4E04_8354, 0x3903_B3C2, 0xA767_2661, 0xD060_16F7, 0x4969_474D, 0x3E6E_77DB,
    0xAED1_6A4A, 0xD9D6_5ADC, 0x40DF_0B66, 0x37D8_3BF0, 0xA9BC_AE53, 0xDEBB_9EC5, 0x47B2_CF7F, 0x30B5_FFE9]

  const ROW15: seq<bv32> := [
    0xBDBD_F21C, 0xCABA_C28A, 0x53B3_9330, 0x24B4_A3A6, 0xBAD0_3605, 0xCDD7_0693, 0x54DE_5729, 0x23D9_67BF,
    0xB366_7A2E, 0xC461_4AB8, 0x5D68_1B02, 0x2A6F_2B94, 0xB40B_BE37, 0xC30C_8EA1, 0x5A05_DF1B, 0x2D02_EF8D]

  function Row(h: bv32): seq<bv32> {
    match h
    case 0 => ROW0
    case 1 => ROW1
    case 2 => ROW2
    case 3 => ROW3
    case 4 => ROW4
    case 5 => ROW5
    case 6 => ROW6
    case 7 => ROW7
    case 8 => ROW8
    case 9 => ROW9
    case 10 => ROW10
    case 11 => ROW11
    case 12 => ROW12
    case 13 => ROW13
    case 14 => ROW14
    case _ => ROW15
  }

  function Low(x: bv32): nat { (x & 0xF) as nat }

  function High(x: bv32): bv32 { x >> 4 }

  /** crc32_tab[x] */
  function Lookup(x: bv32): bv32
    requires x < 256
  {
    RowLength(High(x), x);
    Row(High(x))[Low(x)]
  }

  lemma RowLength(h: bv32, x: bv32)
    ensures |Row(h)| == 16 && Low(x) < 16
  {
  }

  function Base(x: bv32): bv32 { x & 0xFFFF_FFF0 }

  function Plus(b: bv32, k: bv32): bv32 { b + k }

  /** Sixteen consecutive entries as the steps give them. */
  function Computed(b: bv32): seq<bv32> {
    [
      Step8(Plus(b, 0)), Step8(Plus(b, 1)), Step8(Plus(b, 2)), Step8(Plus(b, 3)),
      Step8(Plus(b, 4)), Step8(Plus(b, 5)), Step8(Plus(b, 6)), Step8(Plus(b, 7)),
      Step8(Plus(b, 8)), Step8(Plus(b, 9)), Step8(Plus(b, 10)), Step8(Plus(b, 11)),
      Step8(Plus(b, 12)), Step8(Plus(b, 13)), Step8(Plus(b, 14)), Step8(Plus(b, 15))
    ]
  }

  lemma {:induction false} Row0()
    ensures ROW0 == Computed(0)
  {
    assert Plus(0, 0) == 0 && Plus(0, 1) == 1 && Plus(0, 2) == 2 && Plus(0, 3) == 3;
    assert Plus(0, 4) == 4 && Plus(0, 5) == 5 && Plus(0, 6) == 6 && Plus(0, 7) == 7;
    assert Plus(0, 8) == 8 && Plus(0, 9) == 9 && Plus(0, 10) == 10 && Plus(0, 11) == 11;
    assert Plus(0, 12) == 12 && Plus(0, 13) == 13 && Plus(0, 14) == 14 && Plus(0, 15) == 15;
    hide Plus;
  }

  lemma Row1() ensures ROW1 == Computed(16) { }

  lemma Row2() ensures ROW2 == Computed(32) { }

  lemma Row3() ensures ROW3 == Computed(48) { }

  lemma Row4() ensures ROW4 == Computed(64) { }

  lemma Row5() ensures ROW5 == Computed(80) { }

  lemma Row6() ensures ROW6 == Computed(96) { }

  lemma Row7() ensures ROW7 == Computed(112) { }

  lemma Row8() ensures ROW8 == Computed(128) { }

  lemma Row9() ensures ROW9 == Computed(144) { }

  lemma Row10() ensures ROW10 == Computed(160) { }

  lemma Row11() ensures ROW11 == Computed(176) { }

  lemma Row12() ensures ROW12 == Computed(192) { }

  lemma Row13() ensures ROW13 == Computed(208) { }

  lemma Row14() ensures ROW14 == Computed(224) { }

  lemma Row15() ensures ROW15 == Computed(240) { }

  function Nib(x: bv32): bv32 { x & 0xF }

  lemma Nibble(x: bv32)
    ensures Nib(x) < 16 && Nib(x) as nat == Low(x) && x == Plus(Base(x), Nib(x))
  {
  }

  lemma {:induction false} InRow(x: bv32, b: bv32, k: bv32)
    requires k < 16 && x == Plus(b, k)
    ensures Computed(b)[k as nat] == Step8(x)
  {
    hide Step8, Plus;
    assert k == 0 || k == 1 || k == 2 || k == 3 || k == 4 || k == 5 || k == 6 || k == 7
        || k == 8 || k == 9 || k == 10 || k == 11 || k == 12 || k == 13 || k == 14 || k == 15;
  }

  lemma {:induction false} RowIsComputed(h: bv32, b: bv32)
    requires h < 16 && b == h << 4
    ensures Row(h) == Computed(b)
  {
    hide Computed;
    match h
    case 0 => Row0();
    case 1 => Row1();
    case 2 => Row2();
    case 3 => Row3();
    case 4 => Row4();
    case 5 => Row5();
    case 6 => Row6();
    case 7 => Row7();
    case 8 => Row8();
    case 9 => Row9();
    case 10 => Row10();
    case 11 => Row11();
    case 12 => Row12();
    case 13 => Row13();
    case 14 => Row14();
    case _ =>
      assert h == 15;
      Row15();
  }

  lemma BaseOfHigh(x: bv32)
    requires x < 256
    ensures High(x) < 16 && Base(x) == High(x) << 4
  {
  }

  /** Every entry of the table is eight shift/xor steps on its index. */
  lemma {:induction false} TableIsSteps(x: bv32)
    requires x < 256
    ensures Lookup(x) == Step8(x)
  {
    hide Step8, Computed, Row, Base, High, Low, Plus, Nib;
    Nibble(x);
    BaseOfHigh(x);
    RowIsComputed(High(x), Base(x));
    InRow(x, Base(x), Nib(x));
  }
}
