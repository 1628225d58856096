/** What a digest says about its data: the residue law, and two examples of RFC 3720, appendix B.4. */
module DigestVectors {
  import opened Crc32c
  import opened Digest

  // ---------- The residue ----------

  lemma WordOfFour(a: bv8, b: bv8, c: bv8, d: bv8)
    ensures WordOf([a, b, c, d]) == Push(a, Push(b, Push(c, Push(d, 0))))
  {
    hide Push;
    assert [a, b, c, d][1..] == [b, c, d] && [b, c, d][1..] == [c, d] && [c, d][1..] == [d] && [d][1..] == [];
    assert WordOf([d]) == Push(d, 0);
    assert WordOf([c, d]) == Push(c, WordOf([d]));
    assert WordOf([b, c, d]) == Push(b, WordOf([c, d]));
  }

  /** A word and its bytes in memory. */
  lemma BytesMakeWord(w: bv32)
    ensures WordOf(WordBytes(w)) == w
  {
    hide Push;
    var b := WordBytes(w);
    WordOfFour(b[0], b[1], b[2], b[3]);
    FourPushes(w);
    assert b == [b[0], b[1], b[2], b[3]];
  }

  lemma FourPushes(w: bv32)
    ensures var b := WordBytes(w); Push(b[0], Push(b[1], Push(b[2], Push(b[3], 0)))) == w
  {
  }

  lemma OnesAreLeft(c: bv32)
    ensures AddWord(c, !c) == 0xFFFF_FFFF
  {
  }

  /** The register after any data, its padding and its own digest in memory order is the residue. */
  lemma Residue(data: seq<bv8>, padding: bv32)
    ensures var padded := data + WordBytes(padding)[..PadLength(|data|)];
      Crc(0xFFFF_FFFF, padded + WordBytes(DigestOf(data, padding))) == 0xB798_B438
  {
    hide Crc, CrcBits, AddWord, WordBytes, WordOf, PadLength;
    var padded := data + WordBytes(padding)[..PadLength(|data|)];
    var c := Crc(0xFFFF_FFFF, padded);
    CrcConcat(0xFFFF_FFFF, padded, WordBytes(!c));
    CrcOfWord(c, WordBytes(!c));
    BytesMakeWord(!c);
    OnesAreLeft(c);
    ResidueOfOnes();
  }

  // ---------- Examples ----------

  lemma EmptyCrc()
    ensures Crc(0xFFFF_FFFF, []) == 0xFFFF_FFFF
  {
  }

  /** Four more bytes. */
  lemma NextWord(data: seq<bv8>, b: seq<bv8>, c: bv32, c': bv32)
    requires |b| == 4 && Crc(0xFFFF_FFFF, data) == c && CrcBits(AddWord(c, WordOf(b)), 32) == c'
    ensures Crc(0xFFFF_FFFF, data + b) == c'
  {
    hide Crc, CrcBits, AddWord, WordOf;
    CrcConcat(0xFFFF_FFFF, data, b);
    CrcOfWord(c, b);
  }

  /** Data of whole words needs no padding. */
  lemma WholeWords(data: seq<bv8>, c: bv32)
    requires |data| % 4 == 0 && Crc(0xFFFF_FFFF, data) == c
    ensures DigestOf(data, 0) == !c
  {
    hide Crc, WordBytes;
    assert WordBytes(0)[..PadLength(|data|)] == [];
    assert data + [] == data;
  }

  lemma ZeroWord0()
    ensures CrcBits(AddWord(0xFFFF_FFFF, WordOf([0, 0, 0, 0])), 32) == 0xB798_B438
  {
    WordOfFour(0, 0, 0, 0);
    assert WordOf([0, 0, 0, 0]) == 0x0000_0000 && AddWord(0xFFFF_FFFF, 0x0000_0000) == 0xFFFF_FFFF;
    hide WordOf, CrcBits, AddWord;
    assert CrcEight(0xFFFF_FFFF) == 0xAD82_ACAE;
    assert CrcEight(0xAD82_ACAE) == 0x0E9E_882D;
    assert CrcEight(0x0E9E_882D) == 0x9F9B_5C85;
    assert CrcEight(0x9F9B_5C85) == 0xB798_B438;
    ThirtyTwoBits(0xFFFF_FFFF, 0xAD82_ACAE, 0x0E9E_882D, 0x9F9B_5C85, 0xB798_B438);
  }

  lemma ZeroWord1()
    ensures CrcBits(AddWord(0xB798_B438, WordOf([0, 0, 0, 0])), 32) == 0x73D7_4D75
  {
    WordOfFour(0, 0, 0, 0);
    assert WordOf([0, 0, 0, 0]) == 0x0000_0000 && AddWord(0xB798_B438, 0x0000_0000) == 0xB798_B438;
    hide WordOf, CrcBits, AddWord;
    assert CrcEight(0xB798_B438) == 0xBA8D_89CA;
    assert CrcEight(0xBA8D_89CA) == 0xA8D5_8375;
    assert CrcEight(0xA8D5_8375) == 0x44C1_9592;
    assert CrcEight(0x44C1_9592) == 0x73D7_4D75;
    ThirtyTwoBits(0xB798_B438, 0xBA8D_89CA, 0xA8D5_8375, 0x44C1_9592, 0x73D7_4D75);
  }

  lemma ZeroWord2()
    ensures CrcBits(AddWord(0x73D7_4D75, WordOf([0, 0, 0, 0])), 32) == 0xD49F_4AA2
  {
    WordOfFour(0, 0, 0, 0);
    assert WordOf([0, 0, 0, 0]) == 0x0000_0000 && AddWord(0x73D7_4D75, 0x0000_0000) == 0x73D7_4D75;
    hide WordOf, CrcBits, AddWord;
    assert CrcEight(0x73D7_4D75) == 0x441A_975C;
    assert CrcEight(0x441A_975C) == 0x1C22_0F94;
    assert CrcEight(0x1C22_0F94) == 0x552E_4907;
    assert CrcEight(0x552E_4907) == 0xD49F_4AA2;
    ThirtyTwoBits(0x73D7_4D75, 0x441A_975C, 0x1C22_0F94, 0x552E_4907, 0xD49F_4AA2);
  }

  lemma ZeroWord3()
    ensures CrcBits(AddWord(0xD49F_4AA2, WordOf([0, 0, 0, 0])), 32) == 0xBD8F_6515
  {
    WordOfFour(0, 0, 0, 0);
    assert WordOf([0, 0, 0, 0]) == 0x0000_0000 && AddWord(0xD49F_4AA2, 0x0000_0000) == 0xD49F_4AA2;
    hide WordOf, CrcBits, AddWord;
    assert CrcEight(0xD49F_4AA2) == 0x43A4_5A1B;
    assert CrcEight(0x43A4_5A1B) == 0x8994_C80E;
    assert CrcEight(0x8994_C80E) == 0xACF1_2BEF;
    assert CrcEight(0xACF1_2BEF) == 0xBD8F_6515;
    ThirtyTwoBits(0xD49F_4AA2, 0x43A4_5A1B, 0x8994_C80E, 0xACF1_2BEF, 0xBD8F_6515);
  }

  lemma ZeroWord4()
    ensures CrcBits(AddWord(0xBD8F_6515, WordOf([0, 0, 0, 0])), 32) == 0x433A_A9C1
  {
    WordOfFour(0, 0, 0, 0);
    assert WordOf([0, 0, 0, 0]) == 0x0000_0000 && AddWord(0xBD8F_6515, 0x0000_0000) == 0xBD8F_6515;
    hide WordOf, CrcBits, AddWord;
    assert CrcEight(0xBD8F_6515) == 0x2512_5C16;
    assert CrcEight(0x2512_5C16) == 0x36DA_32DB;
    assert CrcEight(0x36DA_32DB) == 0x4A6C_90A2;
    assert CrcEight(0x4A6C_90A2) == 0x433A_A9C1;
    ThirtyTwoBits(0xBD8F_6515, 0x2512_5C16, 0x36DA_32DB, 0x4A6C_90A2, 0x433A_A9C1);
  }

  lemma ZeroWord5()
    ensures CrcBits(AddWord(0x433A_A9C1, WordOf([0, 0, 0, 0])), 32) == 0x7B04_1311
  {
    WordOfFour(0, 0, 0, 0);
    assert WordOf([0, 0, 0, 0]) == 0x0000_0000 && AddWord(0x433A_A9C1, 0x0000_0000) == 0x433A_A9C1;
    hide WordOf, CrcBits, AddWord;
    assert CrcEight(0x433A_A9C1) == 0x31A5_9F6E;
    assert CrcEight(0x31A5_9F6E) == 0xCD8F_89DA;
    assert CrcEight(0xCD8F_89DA) == 0xB8FC_461A;
    assert CrcEight(0xB8FC_461A) == 0x7B04_1311;
    ThirtyTwoBits(0x433A_A9C1, 0x31A5_9F6E, 0xCD8F_89DA, 0xB8FC_461A, 0x7B04_1311);
  }

  lemma ZeroWord6()
    ensures CrcBits(AddWord(0x7B04_1311, WordOf([0, 0, 0, 0])), 32) == 0x0836_3896
  {
    WordOfFour(0, 0, 0, 0);
    assert WordOf([0, 0, 0, 0]) == 0x0000_0000 && AddWord(0x7B04_1311, 0x0000_0000) == 0x7B04_1311;
    hide WordOf, CrcBits, AddWord;
    assert CrcEight(0x7B04_1311) == 0xE24E_407F;
    assert CrcEight(0xE24E_407F) == 0x2F69_2669;
    assert CrcEight(0x2F69_2669) == 0x195B_2188;
    assert CrcEight(0x195B_2188) == 0x0836_3896;
    ThirtyTwoBits(0x7B04_1311, 0xE24E_407F, 0x2F69_2669, 0x195B_2188, 0x0836_3896);
  }

  lemma ZeroWord7()
    ensures CrcBits(AddWord(0x0836_3896, WordOf([0, 0, 0, 0])), 32) == 0x756E_C955
  {
    WordOfFour(0, 0, 0, 0);
    assert WordOf([0, 0, 0, 0]) == 0x0000_0000 && AddWord(0x0836_3896, 0x0000_0000) == 0x0836_3896;
    hide WordOf, CrcBits, AddWord;
    assert CrcEight(0x0836_3896) == 0xB401_2DC7;
    assert CrcEight(0xB401_2DC7) == 0x17F3_4302;
    assert CrcEight(0x17F3_4302) == 0xE12C_83B4;
    assert CrcEight(0xE12C_83B4) == 0x756E_C955;
    ThirtyTwoBits(0x0836_3896, 0xB401_2DC7, 0x17F3_4302, 0xE12C_83B4, 0x756E_C955);
  }

  lemma ZeroHalf()
    ensures Crc(0xFFFF_FFFF, [0, 0, 0, 0, 0, 0, 0, 0, 0, 0, 0, 0, 0, 0, 0, 0]) == 0xBD8F_6515
  {
    hide Crc, CrcBits, AddWord, WordOf;
    EmptyCrc();
    var d0: seq<bv8> := [];
    var d1: seq<bv8> := d0 + [0, 0, 0, 0];
    ZeroWord0();
    NextWord(d0, [0, 0, 0, 0], 0xFFFF_FFFF, 0xB798_B438);
    var d2: seq<bv8> := d1 + [0, 0, 0, 0];
    ZeroWord1();
    NextWord(d1, [0, 0, 0, 0], 0xB798_B438, 0x73D7_4D75);
    var d3: seq<bv8> := d2 + [0, 0, 0, 0];
    ZeroWord2();
    NextWord(d2, [0, 0, 0, 0], 0x73D7_4D75, 0xD49F_4AA2);
    var d4: seq<bv8> := d3 + [0, 0, 0, 0];
    ZeroWord3();
    NextWord(d3, [0, 0, 0, 0], 0xD49F_4AA2, 0xBD8F_6515);
    assert d4 == [0, 0, 0, 0, 0, 0, 0, 0, 0, 0, 0, 0, 0, 0, 0, 0];
  }

  /** Thirty-two zero bytes. */
  lemma ZeroExample()
    ensures DigestOf([0, 0, 0, 0, 0, 0, 0, 0, 0, 0, 0, 0, 0, 0, 0, 0, 0, 0, 0, 0, 0, 0, 0, 0, 0, 0, 0, 0, 0, 0, 0,
      0], 0) == 0x8A91_36AA
  {
    hide Crc, CrcBits, AddWord, WordOf;
    ZeroHalf();
    var d4: seq<bv8> := [0, 0, 0, 0, 0, 0, 0, 0, 0, 0, 0, 0, 0, 0, 0, 0];
    var d5: seq<bv8> := d4 + [0, 0, 0, 0];
    ZeroWord4();
    NextWord(d4, [0, 0, 0, 0], 0xBD8F_6515, 0x433A_A9C1);
    var d6: seq<bv8> := d5 + [0, 0, 0, 0];
    ZeroWord5();
    NextWord(d5, [0, 0, 0, 0], 0x433A_A9C1, 0x7B04_1311);
    var d7: seq<bv8> := d6 + [0, 0, 0, 0];
    ZeroWord6();
    NextWord(d6, [0, 0, 0, 0], 0x7B04_1311, 0x0836_3896);
    var d8: seq<bv8> := d7 + [0, 0, 0, 0];
    ZeroWord7();
    NextWord(d7, [0, 0, 0, 0], 0x0836_3896, 0x756E_C955);
    assert d8 == [0, 0, 0, 0, 0, 0, 0, 0, 0, 0, 0, 0, 0, 0, 0, 0, 0, 0, 0, 0, 0, 0, 0, 0, 0, 0, 0, 0, 0, 0, 0, 0];
    WholeWords(d8, 0x756E_C955);
  }

  lemma IncrementingWord0()
    ensures CrcBits(AddWord(0xFFFF_FFFF, WordOf([0, 1, 2, 3])), 32) == 0x26CC_E55C
  {
    WordOfFour(0, 1, 2, 3);
    assert WordOf([0, 1, 2, 3]) == 0x0302_0100 && AddWord(0xFFFF_FFFF, 0x0302_0100) == 0xFCFD_FEFF;
    hide WordOf, CrcBits, AddWord;
    assert CrcEight(0xFCFD_FEFF) == 0xAD81_AEAF;
    assert CrcEight(0xAD81_AEAF) == 0xFCF5_082C;
    assert CrcEight(0xFCF5_082C) == 0x6D02_B406;
    assert CrcEight(0x6D02_B406) == 0x26CC_E55C;
    ThirtyTwoBits(0xFCFD_FEFF, 0xAD81_AEAF, 0xFCF5_082C, 0x6D02_B406, 0x26CC_E55C);
  }

  lemma IncrementingWord1()
    ensures CrcBits(AddWord(0x26CC_E55C, WordOf([4, 5, 6, 7])), 32) == 0x75D3_43C4
  {
    WordOfFour(4, 5, 6, 7);
    assert WordOf([4, 5, 6, 7]) == 0x0706_0504 && AddWord(0x26CC_E55C, 0x0706_0504) == 0x21CA_E058;
    hide WordOf, CrcBits, AddWord;
    assert CrcEight(0x21CA_E058) == 0xDBDD_48FC;
    assert CrcEight(0xDBDD_48FC) == 0xBEF6_7DED;
    assert CrcEight(0xBEF6_7DED) == 0x5CA6_12B4;
    assert CrcEight(0x5CA6_12B4) == 0x75D3_43C4;
    ThirtyTwoBits(0x21CA_E058, 0xDBDD_48FC, 0xBEF6_7DED, 0x5CA6_12B4, 0x75D3_43C4);
  }

  lemma IncrementingWord2()
    ensures CrcBits(AddWord(0x75D3_43C4, WordOf([8, 9, 10, 11])), 32) == 0xAC7C_5545
  {
    WordOfFour(8, 9, 10, 11);
    assert WordOf([8, 9, 10, 11]) == 0x0B0A_0908 && AddWord(0x75D3_43C4, 0x0B0A_0908) == 0x7ED9_4ACC;
    hide WordOf, CrcBits, AddWord;
    assert CrcEight(0x7ED9_4ACC) == 0x8EB0_305E;
    assert CrcEight(0x8EB0_305E) == 0xFDD3_D5C4;
    assert CrcEight(0xFDD3_D5C4) == 0x04EA_620E;
    assert CrcEight(0x04EA_620E) == 0xAC7C_5545;
    ThirtyTwoBits(0x7ED9_4ACC, 0x8EB0_305E, 0xFDD3_D5C4, 0x04EA_620E, 0xAC7C_5545);
  }

  lemma IncrementingWord3()
    ensures CrcBits(AddWord(0xAC7C_5545, WordOf([12, 13, 14, 15])), 32) == 0x2636_F714
  {
    WordOfFour(12, 13, 14, 15);
    assert WordOf([12, 13, 14, 15]) == 0x0F0E_0D0C && AddWord(0xAC7C_5545, 0x0F0E_0D0C) == 0xA372_5849;
    hide WordOf, CrcBits, AddWord;
    assert CrcEight(0xA372_5849) == 0x396A_B428;
    assert CrcEight(0x396A_B428) == 0xAA5D_BCA5;
    assert CrcEight(0xAA5D_BCA5) == 0x9710_FC06;
    assert CrcEight(0x9710_FC06) == 0x2636_F714;
    ThirtyTwoBits(0xA372_5849, 0x396A_B428, 0xAA5D_BCA5, 0x9710_FC06, 0x2636_F714);
  }

  lemma IncrementingWord4()
    ensures CrcBits(AddWord(0x2636_F714, WordOf([16, 17, 18, 19])), 32) == 0x3386_1419
  {
    WordOfFour(16, 17, 18, 19);
    assert WordOf([16, 17, 18, 19]) == 0x1312_1110 && AddWord(0x2636_F714, 0x1312_1110) == 0x3524_E604;
    hide WordOf, CrcBits, AddWord;
    assert CrcEight(0x3524_E604) == 0xC7AF_B3F9;
    assert CrcEight(0xC7AF_B3F9) == 0x8B1B_1B0A;
    assert CrcEight(0x8B1B_1B0A) == 0x6B69_3323;
    assert CrcEight(0x6B69_3323) == 0x3386_1419;
    ThirtyTwoBits(0x3524_E604, 0xC7AF_B3F9, 0x8B1B_1B0A, 0x6B69_3323, 0x3386_1419);
  }

  lemma IncrementingWord5()
    ensures CrcBits(AddWord(0x3386_1419, WordOf([20, 21, 22, 23])), 32) == 0xD643_786A
  {
    WordOfFour(20, 21, 22, 23);
    assert WordOf([20, 21, 22, 23]) == 0x1716_1514 && AddWord(0x3386_1419, 0x1716_1514) == 0x2490_010D;
    hide WordOf, CrcBits, AddWord;
    assert CrcEight(0x2490_010D) == 0xBF0C_DCD2;
    assert CrcEight(0xBF0C_DCD2) == 0x3257_9D80;
    assert CrcEight(0x3257_9D80) == 0x82C4_6CE5;
    assert CrcEight(0x82C4_6CE5) == 0xD643_786A;
    ThirtyTwoBits(0x2490_010D, 0xBF0C_DCD2, 0x3257_9D80, 0x82C4_6CE5, 0xD643_786A);
  }

  lemma IncrementingWord6()
    ensures CrcBits(AddWord(0xD643_786A, WordOf([24, 25, 26, 27])), 32) == 0x9B21_363E
  {
    WordOfFour(24, 25, 26, 27);
    assert WordOf([24, 25, 26, 27]) == 0x1B1A_1918 && AddWord(0xD643_786A, 0x1B1A_1918) == 0xCD59_6172;
    hide WordOf, CrcBits, AddWord;
    assert CrcEight(0xCD59_6172) == 0x906E_7D9B;
    assert CrcEight(0x906E_7D9B) == 0x0BB1_3951;
    assert CrcEight(0x0BB1_3951) == 0xA345_E8E9;
    assert CrcEight(0xA345_E8E9) == 0x9B21_363E;
    ThirtyTwoBits(0xCD59_6172, 0x906E_7D9B, 0x0BB1_3951, 0xA345_E8E9, 0x9B21_363E);
  }

  lemma IncrementingWord7()
    ensures CrcBits(AddWord(0x9B21_363E, WordOf([28, 29, 30, 31])), 32) == 0xB922_86B1
  {
    WordOfFour(28, 29, 30, 31);
    assert WordOf([28, 29, 30, 31]) == 0x1F1E_1D1C && AddWord(0x9B21_363E, 0x1F1E_1D1C) == 0x843F_2B22;
    hide WordOf, CrcBits, AddWord;
    assert CrcEight(0x843F_2B22) == 0xC102_C102;
    assert CrcEight(0xC102_C102) == 0xE1FA_7236;
    assert CrcEight(0xE1FA_7236) == 0x16A3_542B;
    assert CrcEight(0x16A3_542B) == 0xB922_86B1;
    ThirtyTwoBits(0x843F_2B22, 0xC102_C102, 0xE1FA_7236, 0x16A3_542B, 0xB922_86B1);
  }

  lemma IncrementingHalf()
    ensures Crc(0xFFFF_FFFF, [0, 1, 2, 3, 4, 5, 6, 7, 8, 9, 10, 11, 12, 13, 14, 15]) == 0x2636_F714
  {
    hide Crc, CrcBits, AddWord, WordOf;
    EmptyCrc();
    var d0: seq<bv8> := [];
    var d1: seq<bv8> := d0 + [0, 1, 2, 3];
    IncrementingWord0();
    NextWord(d0, [0, 1, 2, 3], 0xFFFF_FFFF, 0x26CC_E55C);
    var d2: seq<bv8> := d1 + [4, 5, 6, 7];
    IncrementingWord1();
    NextWord(d1, [4, 5, 6, 7], 0x26CC_E55C, 0x75D3_43C4);
    var d3: seq<bv8> := d2 + [8, 9, 10, 11];
    IncrementingWord2();
    NextWord(d2, [8, 9, 10, 11], 0x75D3_43C4, 0xAC7C_5545);
    var d4: seq<bv8> := d3 + [12, 13, 14, 15];
    IncrementingWord3();
    NextWord(d3, [12, 13, 14, 15], 0xAC7C_5545, 0x2636_F714);
    assert d4 == [0, 1, 2, 3, 4, 5, 6, 7, 8, 9, 10, 11, 12, 13, 14, 15];
  }

  /** Thirty-two incrementing bytes. */
  lemma IncrementingExample()
    ensures DigestOf([0, 1, 2, 3, 4, 5, 6, 7, 8, 9, 10, 11, 12, 13, 14, 15, 16, 17, 18, 19, 20, 21, 22, 23, 24,
      25, 26, 27, 28, 29, 30, 31], 0) == 0x46DD_794E
  {
    hide Crc, CrcBits, AddWord, WordOf;
    IncrementingHalf();
    var d4: seq<bv8> := [0, 1, 2, 3, 4, 5, 6, 7, 8, 9, 10, 11, 12, 13, 14, 15];
    var d5: seq<bv8> := d4 + [16, 17, 18, 19];
    IncrementingWord4();
    NextWord(d4, [16, 17, 18, 19], 0x2636_F714, 0x3386_1419);
    var d6: seq<bv8> := d5 + [20, 21, 22, 23];
    IncrementingWord5();
    NextWord(d5, [20, 21, 22, 23], 0x3386_1419, 0xD643_786A);
    var d7: seq<bv8> := d6 + [24, 25, 26, 27];
    IncrementingWord6();
    NextWord(d6, [24, 25, 26, 27], 0xD643_786A, 0x9B21_363E);
    var d8: seq<bv8> := d7 + [28, 29, 30, 31];
    IncrementingWord7();
    NextWord(d7, [28, 29, 30, 31], 0x9B21_363E, 0xB922_86B1);
    assert d8 == [0, 1, 2, 3, 4, 5, 6, 7, 8, 9, 10, 11, 12, 13, 14, 15, 16, 17, 18, 19, 20, 21, 22, 23, 24, 25,
      26, 27, 28, 29, 30, 31];
    WholeWords(d8, 0xB922_86B1);
  }
}
