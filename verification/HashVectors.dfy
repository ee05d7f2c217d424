/** Known values of the hash, computed through the functions of the model. */
module HashVectors {
  import opened Words
  import opened Jhash

  lemma Counts()
    ensures WordOf(1) == 1 && WordOf(4) == 4 && WordOf(5) == 5 && WordOf(30) == 30
  {
    assert WordOf(5) == 5;
    assert WordOf(10) == 10;
    assert WordOf(15) == 15;
    assert WordOf(20) == 20;
    assert WordOf(25) == 25;
  }

  lemma Mixed()
    ensures Mix(Abc(0xdead_beff, 0xdead_beff, 0xdead_beff)) == Abc(0xa358_3e6f, 0x7bff_6a00, 0xecc9_11b8)
    ensures Mix(Abc(0xdead_bf04, 0xdead_bf05, 0xdead_bf06)) == Abc(0xa7d6_1079, 0xe632_ea01, 0x2e8a_1d22)
    ensures Mix(Abc(0x5123_2e54, 0x4e11_322e, 0x3fce_2480)) == Abc(0x9fb9_ade6, 0x8921_1ba9, 0x3fff_f143)
    ensures Mix(Abc(0x12da_1254, 0xf786_920e, 0xa165_6a63)) == Abc(0xd680_42ad, 0x488e_0a5d, 0xab16_e7b2)
  {
  }

  /** The final mix, line by line. */
  lemma FinalBy(s: Abc, c1: bv32, a1: bv32, b1: bv32, c2: bv32, a2: bv32, b2: bv32)
    requires FinalLine(s.c, s.b, 14) == c1 && FinalLine(s.a, c1, 11) == a1 && FinalLine(s.b, a1, 25) == b1
    requires FinalLine(c1, b1, 16) == c2 && FinalLine(a1, c2, 4) == a2 && FinalLine(b1, a2, 14) == b2
    ensures Final(s) == FinalLine(c2, b2, 24)
  {
    hide FinalLine;
  }

  lemma FinishedOne()
    ensures Final(Abc(0xdead_bef3, 0xdead_bef3, 0xdead_bef3)) == 0x0493_96b8
  {
    FinalBy(Abc(0xdead_bef3, 0xdead_bef3, 0xdead_bef3),
            0x9043_0855, 0x36ac_0a24, 0x9f94_5cc3, 0xb313_b502, 0x5484_6efb, 0xaf51_5d17);
  }

  lemma FinishedFour()
    ensures Final(Abc(0xa358_3e6f, 0x7bff_6a00, 0xecc9_11b8)) == 0xbaf9_078c
  {
    FinalBy(Abc(0xa358_3e6f, 0x7bff_6a00, 0xecc9_11b8),
            0xbcb6_5cb9, 0x6d08_94f1, 0x341d_edc8, 0x9ae3_7d54, 0x49b4_145c, 0x7892_e727);
  }

  lemma FinishedFive()
    ensures Final(Abc(0xa7d6_107d, 0xe632_ea06, 0x2e8a_1d22)) == 0x6291_29c0
  {
    FinalBy(Abc(0xa7d6_107d, 0xe632_ea06, 0x2e8a_1d22),
            0x0e37_3d98, 0xeff4_6d74, 0x1fe6_9e98, 0x7339_831a, 0x6935_bcc7, 0x07a1_4812);
  }

  lemma FinishedText()
    ensures Final(Abc(0x37a0_b61f, 0x488e_79c4, 0xab16_e7b2)) == 0xcd62_8161
  {
    FinalBy(Abc(0x37a0_b61f, 0x488e_79c4, 0xab16_e7b2),
            0x4527_8c53, 0x3624_a023, 0x383e_90a7, 0xec71_e4b6, 0x1336_f927, 0x6cbe_a4b3);
  }

  /** The hash of one zero word. */
  lemma OneWord()
    ensures Jhash2Spec([0], 0) == 0x0493_96b8
  {
    Counts();
    FinishedOne();
    hide Mix, Final, WordOf;
    assert Start(Times4(1), 0) == Abc(0xdead_bef3, 0xdead_bef3, 0xdead_bef3);
  }

  /** The hash of four zero words. */
  lemma FourWords()
    ensures Jhash2Spec([0, 0, 0, 0], 0) == 0xbaf9_078c
  {
    Counts();
    Mixed();
    FinishedFour();
    hide Mix, Final, WordOf;
    var k: seq<bv32> := [0, 0, 0, 0];
    assert Start(Times4(4), 0) == Abc(0xdead_beff, 0xdead_beff, 0xdead_beff);
    assert k[3..] == [0];
  }

  /** The hash of the words 1 to 5. */
  lemma FiveWords()
    ensures Jhash2Spec([1, 2, 3, 4, 5], 0) == 0x6291_29c0
  {
    Counts();
    Mixed();
    FinishedFive();
    hide Mix, Final, WordOf;
    var k: seq<bv32> := [1, 2, 3, 4, 5];
    assert Start(Times4(5), 0) == Abc(0xdead_bf03, 0xdead_bf03, 0xdead_bf03);
    assert k[3..] == [4, 5];
    assert WordBlock(Abc(0xdead_bf03, 0xdead_bf03, 0xdead_bf03), k) == Mix(Abc(0xdead_bf04, 0xdead_bf05, 0xdead_bf06));
  }

  /* "Four score and seven years ago" in blocks of twelve bytes. */
  const FOUR_SCORE: seq<bv8> := [0x46, 0x6f, 0x75, 0x72, 0x20, 0x73, 0x63, 0x6f, 0x72, 0x65, 0x20, 0x61]
  const AND_SEVEN: seq<bv8> := [0x6e, 0x64, 0x20, 0x73, 0x65, 0x76, 0x65, 0x6e, 0x20, 0x79, 0x65, 0x61]
  const AGO: seq<bv8> := [0x72, 0x73, 0x20, 0x61, 0x67, 0x6f]

  lemma TextWords()
    ensures LoadWord(FOUR_SCORE[0..4]) == 0x7275_6f46
    ensures LoadWord(FOUR_SCORE[4..8]) == 0x6f63_7320
    ensures LoadWord(FOUR_SCORE[8..12]) == 0x6120_6572
    ensures LoadWord(AND_SEVEN[0..4]) == 0x7320_646e
    ensures LoadWord(AND_SEVEN[4..8]) == 0x6e65_7665
    ensures LoadWord(AND_SEVEN[8..12]) == 0x6165_7920
    ensures Padded(AGO[0..4]) == 0x6120_7372 && Padded(AGO[4..6]) == 0x0000_6f67 && Padded([]) == 0
  {
  }

  /** The self-test of lookup3.c: that text, hashed with the initial value 1. */
  lemma FourScoreAndSeven()
    ensures JhashSpec(FOUR_SCORE + AND_SEVEN + AGO, 1) == 0xcd62_8161
  {
    hide WordOf, ByteTail, ByteBlock, Start;
    var k, rest := FOUR_SCORE + AND_SEVEN + AGO, AND_SEVEN + AGO;
    assert k[12..] == rest && rest[12..] == AGO;
    Counts();
    BlocksOfText(k, rest);
    TailOfText();
    var s1, s2 := ByteBlock(Start(30, 1), k), Abc(0xd680_42ad, 0x488e_0a5d, 0xab16_e7b2);
    assert |k| == 30 && HashBytes(s2, AGO) == ByteTail(s2, AGO) && HashBytes(s1, rest) == HashBytes(s2, AGO);
  }

  lemma BlocksOfText(k: seq<bv8>, rest: seq<bv8>)
    requires |k| >= 12 && |rest| >= 12 && k[..12] == FOUR_SCORE && rest[..12] == AND_SEVEN
    ensures ByteBlock(Start(30, 1), k) == Abc(0x9fb9_ade6, 0x8921_1ba9, 0x3fff_f143)
    ensures ByteBlock(Abc(0x9fb9_ade6, 0x8921_1ba9, 0x3fff_f143), rest) == Abc(0xd680_42ad, 0x488e_0a5d, 0xab16_e7b2)
  {
    hide Mix, LoadWord;
    Mixed();
    TextWords();
    assert k[0..4] == FOUR_SCORE[0..4] && k[4..8] == FOUR_SCORE[4..8] && k[8..12] == FOUR_SCORE[8..12];
    assert rest[0..4] == AND_SEVEN[0..4] && rest[4..8] == AND_SEVEN[4..8] && rest[8..12] == AND_SEVEN[8..12];
  }

  lemma TailOfText()
    ensures ByteTail(Abc(0xd680_42ad, 0x488e_0a5d, 0xab16_e7b2), AGO) == 0xcd62_8161
  {
    hide Final, Padded, ByteTail;
    FinishedText();
    TextWords();
    TailPadded(Abc(0xd680_42ad, 0x488e_0a5d, 0xab16_e7b2), AGO);
    assert Upto(AGO, 0, 4) == AGO[0..4] && Upto(AGO, 4, 8) == AGO[4..6] && Upto(AGO, 8, 12) == [];
  }
}
