/** The published first block of the cipher's key stream, computed through the functions of the model. */
module CipherVectors {
  import opened Words
  import opened ChaCha
  import opened Cipher

  /* The columns of the state at the start, and after each half and each whole double round. */
  const START: Quads := Quads(
    Quad(0x6170_7865, 0x0000_0000, 0x0000_0000, 0x0000_0000), Quad(0x3120_646e, 0x0000_0000, 0x0000_0000, 0x0000_0000),
    Quad(0x7962_2d36, 0x0000_0000, 0x0000_0000, 0x0000_0000), Quad(0x6b20_6574, 0x0000_0000, 0x0000_0000, 0x0000_0000))
  const HALF1: Quads := Quads(
    Quad(0xb787_7feb, 0x4a7d_5c86, 0x5a83_fd3f, 0xe21e_9bcf), Quad(0x1432_6ab4, 0xede1_eb11, 0xc0c9_c590, 0x5c5b_9470),
    Quad(0xe0f8_5009, 0x64e3_fe4e, 0xfb5f_e52f, 0xce29_6bcd), Quad(0xb1d2_6bcb, 0xe3a8_51a6, 0x0b75_56f4, 0xa600_ebd4))
  const ROUND1: Quads := Quads(
    Quad(0x05a2_0412, 0xf427_7dba, 0x5653_a6ee, 0xdc09_a478), Quad(0x8a11_92ac, 0x5bfe_8533, 0xff5f_4c1a, 0xc5f0_10b4),
    Quad(0x811a_68eb, 0x5bdf_ef65, 0x068f_641c, 0x9af9_5424), Quad(0x8706_cb32, 0x1530_e975, 0xda4c_9674, 0x8a07_7b84))
  const HALF2: Quads := Quads(
    Quad(0x04da_ca4e, 0xf309_26f0, 0xeaf7_5acf, 0x6eef_8e21), Quad(0x34bc_adb2, 0x7a2b_ff48, 0xde58_c22d, 0xd78e_5233),
    Quad(0xa151_fcdd, 0x7496_20fe, 0x38be_88cc, 0x25ba_dead), Quad(0x9094_d06c, 0xb589_634a, 0x6136_0903, 0xb7c6_5c5f))
  const ROUND2: Quads := Quads(
    Quad(0xb9f3_14e0, 0x60e8_28db, 0xe3d7_d6d4, 0xc77b_b888), Quad(0xc856_bc05, 0xc41d_7919, 0x822b_9fe5, 0xc6cb_fab0),
    Quad(0x82d2_4aaf, 0x2032_0ebb, 0x0964_71b8, 0x79e1_3791), Quad(0xb888_4710, 0x109e_2e64, 0x6943_8948, 0x3adc_202c))
  const HALF3: Quads := Quads(
    Quad(0x54a6_2e59, 0x9aaf_6de3, 0xfeff_ae45, 0x95f3_f9d1), Quad(0xd5b0_0e7a, 0x92bb_711c, 0x701e_afbe, 0x1e44_c51a),
    Quad(0xc726_beef, 0xf319_61b8, 0x55c4_5746, 0xdd64_0aa9), Quad(0xee58_e054, 0xc120_8ecd, 0xbeb0_2bfd, 0x0013_aebb))
  const ROUND3: Quads := Quads(
    Quad(0x6c5b_e0c7, 0xf775_fa64, 0xd0da_6bc4, 0xb136_d0fe), Quad(0x7752_6bea, 0x305a_a3cc, 0xef72_7915, 0x4934_277c),
    Quad(0xf4ef_a224, 0xa150_c6ab, 0x1c9a_f415, 0x3ab5_74eb), Quad(0xafa4_e118, 0x391f_d65e, 0xf9ca_5a35, 0x9507_b55d))
  const HALF4: Quads := Quads(
    Quad(0xc01e_cde7, 0xc1e6_e57d, 0xa7cf_3f76, 0xcb1f_00cb), Quad(0x23f3_323c, 0x2e17_1f97, 0x521a_0cb9, 0x39dc_a50b),
    Quad(0x8cba_826d, 0x4a10_0210, 0xd6ee_399a, 0x9e2e_9890), Quad(0x88df_23a4, 0x2729_d628, 0xf054_3f82, 0xf45e_678a))
  const ROUND4: Quads := Quads(
    Quad(0x42ef_127d, 0xd327_84aa, 0xe7b8_4ab6, 0xebbe_2418), Quad(0x2c6c_1b38, 0x29a7_1914, 0x85eb_8d2b, 0x424a_8108),
    Quad(0xf5dc_c0b9, 0x7977_2d57, 0x7cea_6acd, 0xa21f_ab8a), Quad(0x1b13_cb43, 0x2011_4953, 0x109a_08b6, 0x1b08_16c8))

  lemma Columns1()
    ensures Down(START) == HALF1
  {
  }

  lemma Diagonals1()
    ensures Untwist(Down(Twist(HALF1))) == ROUND1
  {
  }

  lemma Columns2()
    ensures Down(ROUND1) == HALF2
  {
  }

  lemma Diagonals2()
    ensures Untwist(Down(Twist(HALF2))) == ROUND2
  {
  }

  lemma Columns3()
    ensures Down(ROUND2) == HALF3
  {
  }

  lemma Diagonals3()
    ensures Untwist(Down(Twist(HALF3))) == ROUND3
  {
  }

  lemma Columns4()
    ensures Down(ROUND3) == HALF4
  {
  }

  lemma Diagonals4()
    ensures Untwist(Down(Twist(HALF4))) == ROUND4
  {
  }

  lemma FourDoubleRounds()
    ensures Rounds(Flat(START), 4) == Flat(ROUND4)
  {
    hide Columns, Diagonals, Flat, Down, Twist, Untwist;
    Columns1();
    Diagonals1();
    Columns2();
    Diagonals2();
    Columns3();
    Diagonals3();
    Columns4();
    Diagonals4();
    DoubleByQuads(START);
    DoubleByQuads(ROUND1);
    DoubleByQuads(ROUND2);
    DoubleByQuads(ROUND3);
    assert Rounds(Flat(START), 1) == Flat(ROUND1);
    assert Rounds(Flat(START), 2) == Flat(ROUND2);
    assert Rounds(Flat(START), 3) == Flat(ROUND3);
  }

  lemma StartIsZeroState()
    ensures ZeroState() == Flat(START)
  {
    hide InitState, LoadWord;
    var key: seq<bv8>, iv: seq<bv8> := seq(32, _ => 0), seq(8, _ => 0);
    InitLayout(key, iv);
    ZeroWord(key[0..4]);
    ZeroWord(key[4..8]);
    ZeroWord(key[8..12]);
    ZeroWord(key[12..16]);
    ZeroWord(iv[0..4]);
    ZeroWord(iv[4..8]);
    var s := InitState(key, iv);
    forall i | 0 <= i < 16 ensures s[i] == Cell(START, i) {
      assert i < 4 ==> s[i] == s[..4][i];
      assert 4 <= i < 8 ==> s[i] == s[4..8][i - 4];
      assert 8 <= i < 12 ==> s[i] == s[8..12][i - 8];
    }
  }

  lemma ZeroWord(b: seq<bv8>)
    requires |b| == 4 && forall i :: 0 <= i < 4 ==> b[i] == 0
    ensures LoadWord(b) == 0
  {
  }

  const ROW0: seq<bv32> := [0xa45f_8ae2, 0x5d8c_7fa6, 0x6f3e_edef, 0x8634_30b7]
  const ROW1: seq<bv32> := [0xd327_84aa, 0x29a7_1914, 0x7977_2d57, 0x2011_4953]
  const ROW2: seq<bv32> := [0xe7b8_4ab6, 0x85eb_8d2b, 0x7cea_6acd, 0x109a_08b6]
  const ROW3: seq<bv32> := [0xebbe_2418, 0x424a_8108, 0xa21f_ab8a, 0x1b08_16c8]

  const LINE0: seq<bv8> := [0xe2, 0x8a, 0x5f, 0xa4, 0xa6, 0x7f, 0x8c, 0x5d,
                            0xef, 0xed, 0x3e, 0x6f, 0xb7, 0x30, 0x34, 0x86]
  const LINE1: seq<bv8> := [0xaa, 0x84, 0x27, 0xd3, 0x14, 0x19, 0xa7, 0x29,
                            0x57, 0x2d, 0x77, 0x79, 0x53, 0x49, 0x11, 0x20]
  const LINE2: seq<bv8> := [0xb6, 0x4a, 0xb8, 0xe7, 0x2b, 0x8d, 0xeb, 0x85,
                            0xcd, 0x6a, 0xea, 0x7c, 0xb6, 0x08, 0x9a, 0x10]
  const LINE3: seq<bv8> := [0x18, 0x24, 0xbe, 0xeb, 0x08, 0x81, 0x4a, 0x42,
                            0x8a, 0xab, 0x1f, 0xa2, 0xc8, 0x16, 0x08, 0x1b]

  lemma FourBytesEach(a: bv32, b: bv32, c: bv32, d: bv32)
    ensures Serialize([a, b, c, d]) == StoreWord(a) + StoreWord(b) + StoreWord(c) + StoreWord(d)
  {
    hide StoreWord;
    assert Serialize([a]) == StoreWord(a);
    assert [a, b][..1] == [a] && [a, b, c][..2] == [a, b] && [a, b, c, d][..3] == [a, b, c];
    assert Serialize([a, b]) == StoreWord(a) + StoreWord(b);
    assert Serialize([a, b, c]) == StoreWord(a) + StoreWord(b) + StoreWord(c);
  }

  lemma Row0()
    ensures AddedRow(Flat(ROUND4), Flat(START), 0) == ROW0
  {
    CellIs(ROUND4, 0, 0, 0);
    CellIs(ROUND4, 1, 0, 1);
    CellIs(ROUND4, 2, 0, 2);
    CellIs(ROUND4, 3, 0, 3);
    CellIs(START, 0, 0, 0);
    CellIs(START, 1, 0, 1);
    CellIs(START, 2, 0, 2);
    CellIs(START, 3, 0, 3);
    hide Cell;
  }

  lemma Line0()
    ensures Serialize(ROW0) == LINE0
  {
    assert StoreWord(0xa45f_8ae2) == [0xe2, 0x8a, 0x5f, 0xa4];
    assert StoreWord(0x5d8c_7fa6) == [0xa6, 0x7f, 0x8c, 0x5d];
    assert StoreWord(0x6f3e_edef) == [0xef, 0xed, 0x3e, 0x6f];
    assert StoreWord(0x8634_30b7) == [0xb7, 0x30, 0x34, 0x86];
    hide StoreWord;
    FourBytesEach(0xa45f_8ae2, 0x5d8c_7fa6, 0x6f3e_edef, 0x8634_30b7);
  }

  lemma Row1()
    ensures AddedRow(Flat(ROUND4), Flat(START), 4) == ROW1
  {
    CellIs(ROUND4, 4, 1, 0);
    CellIs(ROUND4, 5, 1, 1);
    CellIs(ROUND4, 6, 1, 2);
    CellIs(ROUND4, 7, 1, 3);
    CellIs(START, 4, 1, 0);
    CellIs(START, 5, 1, 1);
    CellIs(START, 6, 1, 2);
    CellIs(START, 7, 1, 3);
    hide Cell;
  }

  lemma Line1()
    ensures Serialize(ROW1) == LINE1
  {
    assert StoreWord(0xd327_84aa) == [0xaa, 0x84, 0x27, 0xd3];
    assert StoreWord(0x29a7_1914) == [0x14, 0x19, 0xa7, 0x29];
    assert StoreWord(0x7977_2d57) == [0x57, 0x2d, 0x77, 0x79];
    assert StoreWord(0x2011_4953) == [0x53, 0x49, 0x11, 0x20];
    hide StoreWord;
    FourBytesEach(0xd327_84aa, 0x29a7_1914, 0x7977_2d57, 0x2011_4953);
  }

  lemma Row2()
    ensures AddedRow(Flat(ROUND4), Flat(START), 8) == ROW2
  {
    CellIs(ROUND4, 8, 2, 0);
    CellIs(ROUND4, 9, 2, 1);
    CellIs(ROUND4, 10, 2, 2);
    CellIs(ROUND4, 11, 2, 3);
    CellIs(START, 8, 2, 0);
    CellIs(START, 9, 2, 1);
    CellIs(START, 10, 2, 2);
    CellIs(START, 11, 2, 3);
    hide Cell;
  }

  lemma Line2()
    ensures Serialize(ROW2) == LINE2
  {
    assert StoreWord(0xe7b8_4ab6) == [0xb6, 0x4a, 0xb8, 0xe7];
    assert StoreWord(0x85eb_8d2b) == [0x2b, 0x8d, 0xeb, 0x85];
    assert StoreWord(0x7cea_6acd) == [0xcd, 0x6a, 0xea, 0x7c];
    assert StoreWord(0x109a_08b6) == [0xb6, 0x08, 0x9a, 0x10];
    hide StoreWord;
    FourBytesEach(0xe7b8_4ab6, 0x85eb_8d2b, 0x7cea_6acd, 0x109a_08b6);
  }

  lemma Row3()
    ensures AddedRow(Flat(ROUND4), Flat(START), 12) == ROW3
  {
    CellIs(ROUND4, 12, 3, 0);
    CellIs(ROUND4, 13, 3, 1);
    CellIs(ROUND4, 14, 3, 2);
    CellIs(ROUND4, 15, 3, 3);
    CellIs(START, 12, 3, 0);
    CellIs(START, 13, 3, 1);
    CellIs(START, 14, 3, 2);
    CellIs(START, 15, 3, 3);
    hide Cell;
  }

  lemma Line3()
    ensures Serialize(ROW3) == LINE3
  {
    assert StoreWord(0xebbe_2418) == [0x18, 0x24, 0xbe, 0xeb];
    assert StoreWord(0x424a_8108) == [0x08, 0x81, 0x4a, 0x42];
    assert StoreWord(0xa21f_ab8a) == [0x8a, 0xab, 0x1f, 0xa2];
    assert StoreWord(0x1b08_16c8) == [0xc8, 0x16, 0x08, 0x1b];
    hide StoreWord;
    FourBytesEach(0xebbe_2418, 0x424a_8108, 0xa21f_ab8a, 0x1b08_16c8);
  }

  /** The sum of the last round and the start, row by row. */
  lemma StartAddedBack()
    ensures AddMatrix(Flat(ROUND4), Flat(START)) == ROW0 + ROW1 + ROW2 + ROW3
  {
    hide Serialize, AddedRow, Flat, AddMatrix;
    Row0();
    Row1();
    Row2();
    Row3();
    SumByRows(Flat(ROUND4), Flat(START));
  }

  lemma SumByRows(s: Matrix, t: Matrix)
    ensures AddMatrix(s, t) == AddedRow(s, t, 0) + AddedRow(s, t, 4) + AddedRow(s, t, 8) + AddedRow(s, t, 12)
  {
    hide Plus, AddMatrix, AddedRow;
    var m := AddMatrix(s, t);
    SumOfRow(s, t, 0);
    SumOfRow(s, t, 4);
    SumOfRow(s, t, 8);
    SumOfRow(s, t, 12);
    assert m == m[0..4] + m[4..8] + m[8..12] + m[12..16];
  }

  lemma SumOfRow(s: Matrix, t: Matrix, i: nat)
    requires i + 4 <= 16
    ensures AddMatrix(s, t)[i..i + 4] == AddedRow(s, t, i)
  {
    hide Plus;
  }

  function AddedRow(s: Matrix, t: Matrix, i: nat): seq<bv32>
    requires i + 4 <= 16
  {
    [Plus(s[i], t[i]), Plus(s[i + 1], t[i + 1]), Plus(s[i + 2], t[i + 2]), Plus(s[i + 3], t[i + 3])]
  }

  /** The key stream of a packet begins as published for ChaCha8 with a 128-bit key, test case TC1 of
      draft-strombergson-chacha-test-vectors. */
  lemma FirstBlock()
    ensures Keystream(ZeroState(), CHACHA_ROUNDS) == LINE0 + LINE1 + LINE2 + LINE3
  {
    hide Rounds, AddMatrix, Serialize, ZeroState, Flat;
    StartIsZeroState();
    FourDoubleRounds();
    StartAddedBack();
    Line0();
    Line1();
    Line2();
    Line3();
    FourRows(ROW0, ROW1, ROW2, ROW3);
  }

  lemma FourRows(a: seq<bv32>, b: seq<bv32>, c: seq<bv32>, d: seq<bv32>)
    ensures Serialize(a + b + c + d) == Serialize(a) + Serialize(b) + Serialize(c) + Serialize(d)
  {
    hide Serialize;
    SerializeConcat(a, b);
    SerializeConcat(a + b, c);
    SerializeConcat(a + b + c, d);
  }
}
