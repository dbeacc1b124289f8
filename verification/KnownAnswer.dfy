/**
 The generator and a known answer, as section 12.1 and appendix B.4 of RFC 3720
 have them: the checksum of thirty-two zero bytes, worked out on registers kept
 in machine words.
 */
module KnownAnswer {
  import opened Bytes
  import opened Crc32c

  // ---- four bits at a time ----

  lemma Nibble(x: nat, n: nat)
    ensures Bits(x, n + 4) == [x % 2 == 1, x / 2 % 2 == 1, x / 4 % 2 == 1, x / 8 % 2 == 1] + Bits(x / 16, n)
  {
    assert x / 2 / 2 == x / 4 && x / 4 / 2 == x / 8 && x / 8 / 2 == x / 16;
    assert Bits(x, n + 4) == [x % 2 == 1] + Bits(x / 2, n + 3);
    assert Bits(x / 2, n + 3) == [x / 2 % 2 == 1] + Bits(x / 4, n + 2);
    assert Bits(x / 4, n + 2) == [x / 4 % 2 == 1] + Bits(x / 8, n + 1);
  }

  lemma NoBits()
    ensures Bits(0, 0) == []
  {}

  // ---- the generator ----

  /** The powers of x below the thirty-second in the generator. */
  const POWERS: set<nat> := {28, 27, 26, 25, 23, 22, 20, 19, 18, 14, 13, 11, 10, 9, 8, 6, 0}

  lemma PolyBits()
    ensures Poly() ==
      [false, false, false, true] + [true, true, true, false] + [true, true, false, true] + [true, true, false, false]
      + [false, true, true, false] + [true, true, true, true]
      + [false, true, false, false] + [false, false, false, true]
  {
    hide Bits;
    Nibble(0x82F6_3B78, 28);
    Nibble(0x082F_63B7, 24);
    Nibble(0x0082_F63B, 20);
    Nibble(0x0008_2F63, 16);
    Nibble(0x82F6, 12);
    Nibble(0x82F, 8);
    Nibble(0x82, 4);
    Nibble(0x8, 0);
    NoBits();
  }

  /** The generator, bit for bit: the coefficient of each power of x, the highest in the lowest bit. */
  lemma PolyIs(e: nat)
    requires e < 32
    ensures Poly()[31 - e] <==> e in POWERS
  {
    hide Bits, Poly;
    PolyBits();
  }

  // ---- a register in a word ----

  predicate Low(x: bv32) {
    x & 1 == 1
  }

  function Half(x: bv32): bv32 {
    x >> 1
  }

  function Bit(x: bv32, i: nat): bool {
    if i == 0 then Low(x) else Bit(Half(x), i - 1)
  }

  function Of(x: bv32): Crc32 {
    seq(32, i requires 0 <= i < 32 => Bit(x, i))
  }

  function Shift(x: bv32): bv32 {
    if x & 1 == 1 then (x >> 1) ^ 0x82F6_3B78 else x >> 1
  }

  function Shifted(x: bv32, n: nat): bv32
    decreases n
  {
    if n == 0 then x else Shifted(Shift(x), n - 1)
  }

  predicate IsXor(z: bv32, x: bv32, y: bv32) {
    z == x ^ y
  }

  lemma XorHalf(z: bv32, x: bv32, y: bv32)
    requires IsXor(z, x, y)
    ensures IsXor(Half(z), Half(x), Half(y)) && Low(z) == (Low(x) != Low(y))
  {}

  lemma {:induction false} XorBit(z: bv32, x: bv32, y: bv32, i: nat)
    requires IsXor(z, x, y)
    ensures Bit(z, i) == (Bit(x, i) != Bit(y, i))
    decreases i
  {
    hide IsXor, Low, Half;
    XorHalf(z, x, y);
    if i > 0 {
      XorBit(Half(z), Half(x), Half(y), i - 1);
    }
  }

  function Quad(x: bv32): (s: seq<bool>)
    ensures |s| == 4
  {
    [Low(x), Low(Half(x)), Low(Half(Half(x))), Low(Half(Half(Half(x))))]
  }

  function Four(x: bv32): bv32 {
    Half(Half(Half(Half(x))))
  }

  /** The low bits of a word, four times n of them. */
  function Quads(x: bv32, n: nat): (s: seq<bool>)
    ensures |s| == 4 * n
  {
    seq(4 * n, i requires 0 <= i < 4 * n => Bit(x, i))
  }

  lemma BitUp(x: bv32, i: nat)
    ensures Bit(x, i + 1) == Bit(Half(x), i)
  {}

  lemma FourUp(x: bv32, i: nat)
    ensures Bit(x, i + 4) == Bit(Four(x), i)
  {
    hide Low, Half, Bit;
    BitUp(x, i + 3);
    BitUp(Half(x), i + 2);
    BitUp(Half(Half(x)), i + 1);
    BitUp(Half(Half(Half(x))), i);
  }

  lemma OneQuad(x: bv32, y: bv32, n: nat)
    requires y == Four(x)
    ensures Quads(x, n + 1) == Quad(x) + Quads(y, n)
  {
    hide Low, Half, Bit, Four;
    FourBits(x);
    forall i | 4 <= i < 4 * n + 4
      ensures Bit(x, i) == Bit(y, i - 4)
    {
      FourUp(x, i - 4);
    }
  }

  lemma FourBits(x: bv32)
    ensures [Bit(x, 0), Bit(x, 1), Bit(x, 2), Bit(x, 3)] == Quad(x)
  {
    hide Low, Half;
    BitUp(x, 0);
    BitUp(x, 1);
    BitUp(Half(x), 0);
    BitUp(x, 2);
    BitUp(Half(x), 1);
    BitUp(Half(Half(x)), 0);
  }

  lemma PolyWord()
    ensures Of(0x82F6_3B78) == Poly()
  {
    hide Bits, Poly, Bit, Quads;
    OneQuad(0x82F6_3B78, 0x082F_63B7, 7);
    OneQuad(0x082F_63B7, 0x0082_F63B, 6);
    OneQuad(0x0082_F63B, 0x0008_2F63, 5);
    OneQuad(0x0008_2F63, 0x0000_82F6, 4);
    OneQuad(0x0000_82F6, 0x0000_082F, 3);
    OneQuad(0x0000_082F, 0x0000_0082, 2);
    OneQuad(0x0000_0082, 0x0000_0008, 1);
    OneQuad(0x0000_0008, 0x0000_0000, 0);
    PolyBits();
    assert Of(0x82F6_3B78) == Quads(0x82F6_3B78, 8) && Quads(0, 0) == [] by { AllQuads(0x82F6_3B78); }
  }

  lemma AllQuads(x: bv32)
    ensures Of(x) == Quads(x, 8) && Quads(0, 0) == []
  {}

  lemma TopClear(x: bv32)
    ensures !Bit(Half(x), 31)
  {
    hide Bit, Low, Half, Four;
    var a := Half(x);
    var b := Four(Four(Four(a)));
    FourUp(a, 27);
    FourUp(Four(a), 23);
    FourUp(Four(Four(a)), 19);
    FourUp(b, 15);
    FourUp(Four(b), 11);
    FourUp(Four(Four(b)), 7);
    FourUp(Four(Four(Four(b))), 3);
    FourBits(Four(Four(Four(Four(b)))));
    TopOut(x);
  }

  lemma TopOut(x: bv32)
    ensures !Low(Half(Half(Half(Four(Four(Four(Four(Four(Four(Four(Half(x))))))))))))
  {}

  lemma ShiftHalf(x: bv32)
    ensures if Low(x) then IsXor(Shift(x), Half(x), 0x82F6_3B78) else Shift(x) == Half(x)
  {}

  /** A word shifts as its register does. */
  lemma ShiftIs(x: bv32)
    ensures BitStep(Of(x)) == Of(Shift(x))
  {
    hide Poly, Low, Half, Shift, IsXor;
    ShiftHalf(x);
    PolyWord();
    TopClear(x);
    var r, h := Of(x), Half(x);
    forall i | 0 <= i < 32
      ensures BitStep(r)[i] == Of(Shift(x))[i]
    {
      assert (r[1..] + [false])[i] == Bit(h, i);
      if Low(x) {
        XorBit(Shift(x), h, 0x82F6_3B78, i);
        assert Of(0x82F6_3B78)[i] == Poly()[i];
      }
    }
  }

  lemma {:induction false} ShiftedIs(x: bv32, n: nat)
    ensures Steps(Of(x), n) == Of(Shifted(x, n))
    decreases n
  {
    hide Of, Shift, BitStep;
    if n > 0 {
      ShiftIs(x);
      ShiftedIs(Shift(x), n - 1);
    }
  }

  // ---- thirty-two zero bytes ----

  function Zero(n: nat): (s: seq<byte>)
    ensures |s| == n && forall i :: 0 <= i < n ==> s[i] == 0
  {
    seq(n, _ => 0)
  }

  lemma ByteOfZero(x: bv32)
    ensures ByteStep(Of(x), 0) == Of(Shifted(x, 8))
  {
    hide Of, Shifted, Steps;
    ShiftedIs(x, 8);
    assert Xor(Of(x), Bits(0, 8)) == Of(x);
  }

  /** One zero byte through the register. */
  lemma NextZero(x: bv32, y: bv32, n: nat)
    requires Shifted(x, 8) == y
    ensures Run(Of(x), Zero(n + 1)) == Run(Of(y), Zero(n))
  {
    hide Of, Shifted, ByteStep;
    ByteOfZero(x);
    assert Zero(n + 1)[1..] == Zero(n);
  }

  lemma FirstEight()
    ensures Run(Of(0xFFFF_FFFF), Zero(32)) == Run(Of(0x73D7_4D75), Zero(24))
  {
    hide Of, Run;
    assert Shifted(0xFFFF_FFFF, 8) == 0xAD82_ACAE;
    NextZero(0xFFFF_FFFF, 0xAD82_ACAE, 31);
    assert Shifted(0xAD82_ACAE, 8) == 0x0E9E_882D;
    NextZero(0xAD82_ACAE, 0x0E9E_882D, 30);
    assert Shifted(0x0E9E_882D, 8) == 0x9F9B_5C85;
    NextZero(0x0E9E_882D, 0x9F9B_5C85, 29);
    assert Shifted(0x9F9B_5C85, 8) == 0xB798_B438;
    NextZero(0x9F9B_5C85, 0xB798_B438, 28);
    assert Shifted(0xB798_B438, 8) == 0xBA8D_89CA;
    NextZero(0xB798_B438, 0xBA8D_89CA, 27);
    assert Shifted(0xBA8D_89CA, 8) == 0xA8D5_8375;
    NextZero(0xBA8D_89CA, 0xA8D5_8375, 26);
    assert Shifted(0xA8D5_8375, 8) == 0x44C1_9592;
    NextZero(0xA8D5_8375, 0x44C1_9592, 25);
    assert Shifted(0x44C1_9592, 8) == 0x73D7_4D75;
    NextZero(0x44C1_9592, 0x73D7_4D75, 24);
  }

  lemma SecondEight()
    ensures Run(Of(0x73D7_4D75), Zero(24)) == Run(Of(0xBD8F_6515), Zero(16))
  {
    hide Of, Run;
    assert Shifted(0x73D7_4D75, 8) == 0x441A_975C;
    NextZero(0x73D7_4D75, 0x441A_975C, 23);
    assert Shifted(0x441A_975C, 8) == 0x1C22_0F94;
    NextZero(0x441A_975C, 0x1C22_0F94, 22);
    assert Shifted(0x1C22_0F94, 8) == 0x552E_4907;
    NextZero(0x1C22_0F94, 0x552E_4907, 21);
    assert Shifted(0x552E_4907, 8) == 0xD49F_4AA2;
    NextZero(0x552E_4907, 0xD49F_4AA2, 20);
    assert Shifted(0xD49F_4AA2, 8) == 0x43A4_5A1B;
    NextZero(0xD49F_4AA2, 0x43A4_5A1B, 19);
    assert Shifted(0x43A4_5A1B, 8) == 0x8994_C80E;
    NextZero(0x43A4_5A1B, 0x8994_C80E, 18);
    assert Shifted(0x8994_C80E, 8) == 0xACF1_2BEF;
    NextZero(0x8994_C80E, 0xACF1_2BEF, 17);
    assert Shifted(0xACF1_2BEF, 8) == 0xBD8F_6515;
    NextZero(0xACF1_2BEF, 0xBD8F_6515, 16);
  }

  lemma ThirdEight()
    ensures Run(Of(0xBD8F_6515), Zero(16)) == Run(Of(0x7B04_1311), Zero(8))
  {
    hide Of, Run;
    assert Shifted(0xBD8F_6515, 8) == 0x2512_5C16;
    NextZero(0xBD8F_6515, 0x2512_5C16, 15);
    assert Shifted(0x2512_5C16, 8) == 0x36DA_32DB;
    NextZero(0x2512_5C16, 0x36DA_32DB, 14);
    assert Shifted(0x36DA_32DB, 8) == 0x4A6C_90A2;
    NextZero(0x36DA_32DB, 0x4A6C_90A2, 13);
    assert Shifted(0x4A6C_90A2, 8) == 0x433A_A9C1;
    NextZero(0x4A6C_90A2, 0x433A_A9C1, 12);
    assert Shifted(0x433A_A9C1, 8) == 0x31A5_9F6E;
    NextZero(0x433A_A9C1, 0x31A5_9F6E, 11);
    assert Shifted(0x31A5_9F6E, 8) == 0xCD8F_89DA;
    NextZero(0x31A5_9F6E, 0xCD8F_89DA, 10);
    assert Shifted(0xCD8F_89DA, 8) == 0xB8FC_461A;
    NextZero(0xCD8F_89DA, 0xB8FC_461A, 9);
    assert Shifted(0xB8FC_461A, 8) == 0x7B04_1311;
    NextZero(0xB8FC_461A, 0x7B04_1311, 8);
  }

  lemma FourthEight()
    ensures Run(Of(0x7B04_1311), Zero(8)) == Run(Of(0x756E_C955), Zero(0))
  {
    hide Of, Run;
    assert Shifted(0x7B04_1311, 8) == 0xE24E_407F;
    NextZero(0x7B04_1311, 0xE24E_407F, 7);
    assert Shifted(0xE24E_407F, 8) == 0x2F69_2669;
    NextZero(0xE24E_407F, 0x2F69_2669, 6);
    assert Shifted(0x2F69_2669, 8) == 0x195B_2188;
    NextZero(0x2F69_2669, 0x195B_2188, 5);
    assert Shifted(0x195B_2188, 8) == 0x0836_3896;
    NextZero(0x195B_2188, 0x0836_3896, 4);
    assert Shifted(0x0836_3896, 8) == 0xB401_2DC7;
    NextZero(0x0836_3896, 0xB401_2DC7, 3);
    assert Shifted(0xB401_2DC7, 8) == 0x17F3_4302;
    NextZero(0xB401_2DC7, 0x17F3_4302, 2);
    assert Shifted(0x17F3_4302, 8) == 0xE12C_83B4;
    NextZero(0x17F3_4302, 0xE12C_83B4, 1);
    assert Shifted(0xE12C_83B4, 8) == 0x756E_C955;
    NextZero(0xE12C_83B4, 0x756E_C955, 0);
  }

  lemma {:induction false} ValueOfBits(x: nat, n: nat)
    requires x < Pow2(n)
    ensures Value(Bits(x, n)) == x
  {
    if n > 0 {
      ValueOfBits(x / 2, n - 1);
      assert Bits(x, n)[1..] == Bits(x / 2, n - 1);
    }
  }

  lemma HighBits()
    ensures Bits(0x8A91, 16) ==
      [true, false, false, false] + [true, false, false, true]
      + [false, true, false, true] + [false, false, false, true]
  {
    hide Bits;
    Nibble(0x8A91, 12);
    Nibble(0x8A9, 8);
    Nibble(0x8A, 4);
    Nibble(0x8, 0);
    NoBits();
  }

  lemma LastBits()
    ensures Bits(0x8A91_36AA, 32) ==
      [false, true, false, true] + [false, true, false, true] + [false, true, true, false] + [true, true, false, false]
      + [true, false, false, false] + [true, false, false, true]
      + [false, true, false, true] + [false, false, false, true]
  {
    hide Bits;
    Nibble(0x8A91_36AA, 28);
    Nibble(0x08A9_136A, 24);
    Nibble(0x008A_9136, 20);
    Nibble(0x0008_A913, 16);
    HighBits();
  }

  lemma LastWord()
    ensures Of(0x756E_C955) ==
      [true, false, true, false] + [true, false, true, false] + [true, false, false, true] + [false, false, true, true]
      + [false, true, true, true] + [false, true, true, false] + [true, false, true, false] + [true, true, true, false]
  {
    hide Bit, Quads, Of;
    OneQuad(0x756E_C955, 0x0756_EC95, 7);
    OneQuad(0x0756_EC95, 0x0075_6EC9, 6);
    OneQuad(0x0075_6EC9, 0x0007_56EC, 5);
    OneQuad(0x0007_56EC, 0x0000_756E, 4);
    OneQuad(0x0000_756E, 0x0000_0756, 3);
    OneQuad(0x0000_0756, 0x0000_0075, 2);
    OneQuad(0x0000_0075, 0x0000_0007, 1);
    OneQuad(0x0000_0007, 0x0000_0000, 0);
    AllQuads(0x756E_C955);
  }

  /** The last register, inverted, holds the answer. */
  lemma LastIs()
    ensures Not(Of(0x756E_C955)) == Bits(0x8A91_36AA, 32)
  {
    hide Bits, Of;
    LastBits();
    LastWord();
  }

  lemma OnesIs()
    ensures Of(0xFFFF_FFFF) == Not(Clear(32))
  {
    hide Bit, Quads;
    OneQuad(0xFFFF_FFFF, 0x0FFF_FFFF, 7);
    OneQuad(0x0FFF_FFFF, 0x00FF_FFFF, 6);
    OneQuad(0x00FF_FFFF, 0x000F_FFFF, 5);
    OneQuad(0x000F_FFFF, 0x0000_FFFF, 4);
    OneQuad(0x0000_FFFF, 0x0000_0FFF, 3);
    OneQuad(0x0000_0FFF, 0x0000_00FF, 2);
    OneQuad(0x0000_00FF, 0x0000_000F, 1);
    OneQuad(0x0000_000F, 0x0000_0000, 0);
    AllQuads(0xFFFF_FFFF);
  }

  lemma NoZeros(c: Register)
    ensures Run(c, Zero(0)) == c
  {}

  lemma Little()
    ensures ToLe(0x8A91_36AA, 4) == [0xAA, 0x36, 0x91, 0x8A]
  {
    assert ToLe(0x8A91, 2) == [0x91, 0x8A];
    assert ToLe(0x8A_9136, 3) == [0x36] + ToLe(0x8A91, 2);
    assert ToLe(0x8A91_36AA, 4) == [0xAA] + ToLe(0x8A_9136, 3);
  }

  /** The checksum of thirty-two zero bytes, and how it is stored. */
  lemma ZerosSum()
    ensures Sum(Zero(32)) == 0x8A91_36AA && ToLe(Sum(Zero(32)), 4) == [0xAA, 0x36, 0x91, 0x8A]
  {
    hide Run, Of, Bits, Not, Value, Zero;
    FirstEight();
    SecondEight();
    ThirdEight();
    FourthEight();
    NoZeros(Of(0x756E_C955));
    OnesIs();
    LastIs();
    Pow2Is32();
    ValueOfBits(0x8A91_36AA, 32);
    Little();
  }
}
