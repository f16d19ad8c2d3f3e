/** A known answer of the cipher, followed through its 32 rounds. */
module XteaKnownAnswer {
  import opened Bytes
  import opened MachineWords
  import opened XteaCipher

  const KEY := Xtea(0x0001_0203, 0x0405_0607, 0x0809_0A0B, 0x0C0D_0E0F)

  /** The halves before a round, and the schedule's value. */
  datatype Point = Point(b: Block, sum: word)

  function After(p: Point): Point {
    Point(Round(KEY, p.b, p.sum), Plus(p.sum, DELTA))
  }

  /** The points before rounds 0 to 31 and after the last. */
  function Trace(i: nat): Point
    requires i <= 32
  {
    if i == 0 then Point(Halves(0x4142_4344, 0x4546_4748), 0x0000_0000)
    else if i == 1 then Point(Halves(0xDCD7_CF45, 0x477C_E5EF), 0x9E37_79B9)
    else if i == 2 then Point(Halves(0xFC26_AF53, 0xCD42_78CF), 0x3C6E_F372)
    else if i == 3 then Point(Halves(0xD80E_94CB, 0x4DDF_38A2), 0xDAA6_6D2B)
    else if i == 4 then Point(Halves(0xA3DE_6C88, 0xF1E7_792D), 0x78DD_E6E4)
    else if i == 5 then Point(Halves(0x171D_3729, 0x9186_2A1F), 0x1715_609D)
    else if i == 6 then Point(Halves(0xCC8C_1344, 0xEBEE_AA9A), 0xB54C_DA56)
    else if i == 7 then Point(Halves(0xE57D_7733, 0x59E5_FC40), 0x5384_540F)
    else if i == 8 then Point(Halves(0x8F65_016F, 0xCE36_8FE5), 0xF1BB_CDC8)
    else if i == 9 then Point(Halves(0xD258_174E, 0x48D6_1211), 0x8FF3_4781)
    else if i == 10 then Point(Halves(0x165E_0567, 0x9E71_7B10), 0x2E2A_C13A)
    else if i == 11 then Point(Halves(0xCAC4_8414, 0x4AFF_1B86), 0xCC62_3AF3)
    else if i == 12 then Point(Halves(0xEB8E_9954, 0x24E5_DFEF), 0x6A99_B4AC)
    else if i == 13 then Point(Halves(0x0A88_B2A5, 0xE4A3_F5F5), 0x08D1_2E65)
    else if i == 14 then Point(Halves(0x47F0_B53D, 0x52CC_1B88), 0xA708_A81E)
    else if i == 15 then Point(Halves(0x7622_F70A, 0xE54C_9980), 0x4540_21D7)
    else if i == 16 then Point(Halves(0xDEA0_B0B4, 0x0966_B066), 0xE377_9B90)
    else if i == 17 then Point(Halves(0x5B9F_2A8E, 0xA8DC_137C), 0x81AF_1549)
    else if i == 18 then Point(Halves(0x1077_1C15, 0xE45E_1448), 0x1FE6_8F02)
    else if i == 19 then Point(Halves(0x1145_6D7C, 0xC85F_792D), 0xBE1E_08BB)
    else if i == 20 then Point(Halves(0x9785_6208, 0x1099_631C), 0x5C55_8274)
    else if i == 21 then Point(Halves(0xDD80_3B8B, 0xCB8F_61E7), 0xFA8C_FC2D)
    else if i == 22 then Point(Halves(0x522C_00DD, 0x9E3F_7329), 0x98C4_75E6)
    else if i == 23 then Point(Halves(0x77B7_44A0, 0x69C1_348C), 0x36FB_EF9F)
    else if i == 24 then Point(Halves(0xC1CD_CCFE, 0x6F59_3666), 0xD533_6958)
    else if i == 25 then Point(Halves(0x7544_5A60, 0x2DB1_708D), 0x736A_E311)
    else if i == 26 then Point(Halves(0xF488_7559, 0x8BB6_51D7), 0x11A2_5CCA)
    else if i == 27 then Point(Halves(0x47CC_DC59, 0xFCD8_F11C), 0xAFD9_D683)
    else if i == 28 then Point(Halves(0xC471_004F, 0x5097_C822), 0x4E11_503C)
    else if i == 29 then Point(Halves(0xD6F3_570B, 0x00D3_5711), 0xEC48_C9F5)
    else if i == 30 then Point(Halves(0xD53D_E450, 0xA108_22D4), 0x8A80_43AE)
    else if i == 31 then Point(Halves(0xF959_A6E3, 0x6076_A570), 0x28B7_BD67)
    else Point(Halves(0x497D_F3D0, 0x7261_2CB5), 0xC6EF_3720)
  }

  lemma Rounds0(i: nat)
    requires 0 <= i < 4
    ensures After(Trace(i)) == Trace(i + 1)
  {
  }

  lemma Rounds4(i: nat)
    requires 4 <= i < 8
    ensures After(Trace(i)) == Trace(i + 1)
  {
  }

  lemma Rounds8(i: nat)
    requires 8 <= i < 12
    ensures After(Trace(i)) == Trace(i + 1)
  {
  }

  lemma Rounds12(i: nat)
    requires 12 <= i < 16
    ensures After(Trace(i)) == Trace(i + 1)
  {
  }

  lemma Rounds16(i: nat)
    requires 16 <= i < 20
    ensures After(Trace(i)) == Trace(i + 1)
  {
  }

  lemma Rounds20(i: nat)
    requires 20 <= i < 24
    ensures After(Trace(i)) == Trace(i + 1)
  {
  }

  lemma Rounds24(i: nat)
    requires 24 <= i < 28
    ensures After(Trace(i)) == Trace(i + 1)
  {
  }

  lemma Rounds28(i: nat)
    requires 28 <= i < 32
    ensures After(Trace(i)) == Trace(i + 1)
  {
  }

  lemma OneRound(i: nat)
    requires i < 32
    ensures After(Trace(i)) == Trace(i + 1)
  {
    if i < 4 { Rounds0(i); } else     if i < 8 { Rounds4(i); } else     if i < 12 { Rounds8(i); } else     if i < 16 { Rounds12(i); } else     if i < 20 { Rounds16(i); } else     if i < 24 { Rounds20(i); } else     if i < 28 { Rounds24(i); } else { Rounds28(i); }
  }

  lemma {:induction false} AllRounds(n: nat)
    requires n <= 32
    ensures Forward(Rounds(KEY), Trace(0).b, n) == Trace(n).b && Schedule(n) == Trace(n).sum
  {
    if n > 0 {
      AllRounds(n - 1);
      OneRound(n - 1);
      assert Rounds(KEY)(Trace(n - 1).b, n - 1) == Round(KEY, Trace(n - 1).b, Schedule(n - 1));
    }
  }

  /** The bytes of the words 41424344 45464748 in memory, under the key 00010203 04050607 08090A0B 0C0D0E0F. */
  lemma KnownAnswer()
    ensures EncryptBlock(KEY)([0x44, 0x43, 0x42, 0x41, 0x48, 0x47, 0x46, 0x45]) == [0xD0, 0xF3, 0x7D, 0x49, 0xB5, 0x2C, 0x61, 0x72]
  {
    var s: Octets8 := [0x44, 0x43, 0x42, 0x41, 0x48, 0x47, 0x46, 0x45];
    AllRounds(ROUNDS);
    PlainBytes(s);
    CipherBytes();
  }

  lemma PlainBytes(s: Octets8)
    requires s == [0x44, 0x43, 0x42, 0x41, 0x48, 0x47, 0x46, 0x45]
    ensures BlockOf(s) == Trace(0).b
  {
    assert s[..4] == [0x44, 0x43, 0x42, 0x41] && s[4..] == [0x48, 0x47, 0x46, 0x45];
    assert Word([0x44, 0x43, 0x42, 0x41]) == 0x4142_4344;
    assert Word([0x48, 0x47, 0x46, 0x45]) == 0x4546_4748;
  }

  lemma FirstBytes()
    ensures WordOctets(0x497D_F3D0) == [0xD0, 0xF3, 0x7D, 0x49]
  {
  }

  lemma LastBytes()
    ensures WordOctets(0x7261_2CB5) == [0xB5, 0x2C, 0x61, 0x72]
  {
  }

  lemma CipherBytes()
    ensures BlockOctets(Trace(32).b) == [0xD0, 0xF3, 0x7D, 0x49, 0xB5, 0x2C, 0x61, 0x72]
  {
    FirstBytes();
    LastBytes();
  }
}
