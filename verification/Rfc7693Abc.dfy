/** The digest of the three letters "abc". */
module Rfc7693Abc {
  import opened Words
  import opened BvWords
  import opened Rfc7693
  import opened Rfc7693Vectors

  const Abc0 := V(0x6b08_e647, 0xbb67_ae85, 0x3c6e_f372, 0xa54f_f53a, 0x510e_527f, 0x9b05_688c, 0x1f83_d9ab, 0x5be0_cd19,
        0x6a09_e667, 0xbb67_ae85, 0x3c6e_f372, 0xa54f_f53a, 0x510e_527c, 0x9b05_688c, 0xe07c_2654, 0x5be0_cd19)

  const Abc1 := V(0x16a3_242e, 0xd7b5_e238, 0xce8c_e24b, 0x927a_ede1, 0xa7b4_30d9, 0x93a4_a14e, 0xa44e_7c31, 0x41d4_759b,
        0x95bf_33d3, 0x9a99_c181, 0x608a_3a6b, 0xb666_383e, 0x7a8d_d50f, 0xbe37_8ed7, 0x353d_1ee6, 0x3bb4_4c6b)

  const Abc2 := V(0x3ae3_0fe3, 0x0982_a96b, 0xe881_85b4, 0x3e33_9b16, 0xf243_38cd, 0x0e66_d326, 0xe005_ed0c, 0xd591_a277,
        0x180b_1f3a, 0xfcf4_3914, 0x30db_62d6, 0x4847_831c, 0x7f00_c58e, 0xfb84_7886, 0xc544_e836, 0x524a_b0e2)

  const Abc3 := V(0x7a3b_e783, 0x9975_46c1, 0xd452_46df, 0xedb5_f821, 0x7f98_a742, 0x10e8_64e2, 0xd4ab_70d0, 0xc63c_b1ab,
        0x6038_da9e, 0x4145_94b0, 0xf2c2_18b5, 0x8da0_dcb7, 0xd7cd_7af5, 0xab49_09df, 0x8503_1a52, 0xc4ed_fc98)

  const Abc4 := V(0x2a8b_8cb7, 0x1aca_82b2, 0x1404_5d7f, 0xcc72_58ed, 0x383c_f67c, 0xe090_e7f9, 0x3025_d276, 0x57d0_4de4,
        0x994b_acf0, 0xf098_2759, 0xf17e_e300, 0xd48f_c2d5, 0xdc85_4c10, 0x5238_98a9, 0xc03a_0f89, 0x47d6_cd88)

  const Abc5 := V(0xc4aa_2ddb, 0x1113_43a3, 0xd54a_700a, 0x574a_00a9, 0x857d_5a48, 0xb1e1_1989, 0x6f5c_52df, 0xdd2c_53a3,
        0x678e_5f8e, 0x9718_d4e9, 0x622c_b684, 0x9297_6076, 0x0e41_a517, 0x359d_c2be, 0x87a8_7ddd, 0x643f_9cec)

  const Abc6 := V(0x3453_921c, 0xd759_5ee1, 0x592e_776d, 0x3ed6_a974, 0x4d99_7cb3, 0xde92_12c3, 0x35ad_f5c9, 0x9916_fd65,
        0x9656_2e89, 0x4ead_0792, 0xebfc_2712, 0x2385_f5b2, 0xf346_00fb, 0xd7bc_20fb, 0xeb45_2a7b, 0xece1_aa40)

  const Abc7 := V(0xbe85_1b2d, 0xa85f_6358, 0x81e6_fc3b, 0x0bb2_8000, 0xfa55_a33a, 0x87be_1fad, 0x4119_370f, 0x1e22_61aa,
        0xa131_8fd3, 0xf432_9816, 0x0717_83c2, 0x6e53_6a8d, 0x9a81_a601, 0xe7ec_80f1, 0xacc0_9948, 0xf849_a584)

  const Abc8 := V(0x07e5_b85a, 0x069c_c164, 0xf9de_3141, 0xa56f_4680, 0x9e44_0ad2, 0x9ab6_59ea, 0x3c84_b971, 0x21db_d9cf,
        0x4669_9f8c, 0x7652_57ec, 0xaf1d_998c, 0x75e4_c3b6, 0x5238_78dc, 0x3071_5015, 0x397f_ee81, 0x4f1f_a799)

  const Abc9 := V(0x4351_48c4, 0xa5aa_2d11, 0x4b35_4173, 0xd543_bc9e, 0xbda2_591c, 0xbf1d_2569, 0x4fcb_3120, 0x707a_da48,
        0x565b_3fde, 0x32c9_c916, 0xeaf4_a1ab, 0xb101_8f28, 0x8078_d978, 0x68ad_e4b5, 0x9778_fda3, 0x2863_b92e)

  const Abc10 := V(0xd9c9_94aa, 0xcfec_3aa6, 0x700d_0ab2, 0x2c38_670e, 0xaf6a_1f66, 0x1d02_3ef3, 0x1d9e_c27d, 0x9453_57a5,
        0x3e9f_febd, 0x969f_e811, 0xef48_5e21, 0xa632_797a, 0xdeef_082e, 0xaf3d_80e1, 0x4e86_829b, 0x4dea_fd3a)

  lemma AbcRound0()
    ensures Diagonal(Column(Abc0, W(0x0063_6261, 0, 0, 0, 0, 0, 0, 0)),
                     W(0, 0, 0, 0, 0, 0, 0, 0)) == Abc1
  {
  }

  lemma AbcRound1()
    ensures Diagonal(Column(Abc1, W(0, 0, 0, 0, 0, 0, 0, 0)),
                     W(0, 0, 0x0063_6261, 0, 0, 0, 0, 0)) == Abc2
  {
  }

  lemma AbcRound2()
    ensures Diagonal(Column(Abc2, W(0, 0, 0, 0x0063_6261, 0, 0, 0, 0)),
                     W(0, 0, 0, 0, 0, 0, 0, 0)) == Abc3
  {
  }

  lemma AbcRound3()
    ensures Diagonal(Column(Abc3, W(0, 0, 0, 0, 0, 0, 0, 0)),
                     W(0, 0, 0, 0, 0, 0x0063_6261, 0, 0)) == Abc4
  {
  }

  lemma AbcRound4()
    ensures Diagonal(Column(Abc4, W(0, 0x0063_6261, 0, 0, 0, 0, 0, 0)),
                     W(0, 0, 0, 0, 0, 0, 0, 0)) == Abc5
  {
  }

  lemma AbcRound5()
    ensures Diagonal(Column(Abc5, W(0, 0, 0, 0, 0x0063_6261, 0, 0, 0)),
                     W(0, 0, 0, 0, 0, 0, 0, 0)) == Abc6
  {
  }

  lemma AbcRound6()
    ensures Diagonal(Column(Abc6, W(0, 0, 0, 0, 0, 0, 0, 0)),
                     W(0x0063_6261, 0, 0, 0, 0, 0, 0, 0)) == Abc7
  {
  }

  lemma AbcRound7()
    ensures Diagonal(Column(Abc7, W(0, 0, 0, 0, 0, 0, 0, 0)),
                     W(0, 0x0063_6261, 0, 0, 0, 0, 0, 0)) == Abc8
  {
  }

  lemma AbcRound8()
    ensures Diagonal(Column(Abc8, W(0, 0, 0, 0, 0, 0, 0x0063_6261, 0)),
                     W(0, 0, 0, 0, 0, 0, 0, 0)) == Abc9
  {
  }

  lemma AbcRound9()
    ensures Diagonal(Column(Abc9, W(0, 0, 0, 0, 0, 0, 0, 0)),
                     W(0, 0, 0, 0, 0, 0, 0, 0x0063_6261)) == Abc10
  {
  }

  lemma AbcRounds(v: State, m: State)
    requires View(v) == Abc0
    requires View(m) == V(0x0063_6261, 0x0000_0000, 0x0000_0000, 0x0000_0000, 0x0000_0000, 0x0000_0000, 0x0000_0000, 0x0000_0000,
        0x0000_0000, 0x0000_0000, 0x0000_0000, 0x0000_0000, 0x0000_0000, 0x0000_0000, 0x0000_0000, 0x0000_0000)
    ensures View(Rounds(v, m, 10)) == Abc10
  {
    hide Column, Diagonal, View, Rounds;
    assert View(Rounds(v, m, 0)) == View(v) by { NoRounds(v, m); }
    RoundIs(v, m, 0);
    AbcRound0();
    RoundIs(v, m, 1);
    AbcRound1();
    RoundIs(v, m, 2);
    AbcRound2();
    RoundIs(v, m, 3);
    AbcRound3();
    RoundIs(v, m, 4);
    AbcRound4();
    RoundIs(v, m, 5);
    AbcRound5();
    RoundIs(v, m, 6);
    AbcRound6();
    RoundIs(v, m, 7);
    AbcRound7();
    RoundIs(v, m, 8);
    AbcRound8();
    RoundIs(v, m, 9);
    AbcRound9();
  }

  lemma AbcCompression(h: Chain, block: Block)
    requires ChainView(h) == W(0x6b08_e647, 0xbb67_ae85, 0x3c6e_f372, 0xa54f_f53a, 0x510e_527f, 0x9b05_688c, 0x1f83_d9ab, 0x5be0_cd19)
    requires View(MessageWords(block))
      == V(0x0063_6261, 0x0000_0000, 0x0000_0000, 0x0000_0000, 0x0000_0000, 0x0000_0000, 0x0000_0000, 0x0000_0000,
          0x0000_0000, 0x0000_0000, 0x0000_0000, 0x0000_0000, 0x0000_0000, 0x0000_0000, 0x0000_0000, 0x0000_0000)
    ensures ChainView(F(h, block, 3, true)) == W(0x8c5e_8c50, 0xe214_7c32, 0xa32b_a7e1, 0x2f45_eb4e, 0x208b_4537, 0x293a_d69e, 0x4c9b_994d, 0x8259_6786)
  {
    hide Bv, View, ChainView, Rounds, MessageWords, Local, F;
    LocalIs(h, 3, true);
    WordIs(Low(3), 3);
    WordIs(High(3), 0);
    CompressIs(h, block, 3, true);
    AbcRounds(Local(h, 3, true), MessageWords(block));
  }

  lemma AbcBytes(h: Chain)
    requires ChainView(h) == W(0x8c5e_8c50, 0xe214_7c32, 0xa32b_a7e1, 0x2f45_eb4e, 0x208b_4537, 0x293a_d69e, 0x4c9b_994d, 0x8259_6786)
    ensures ChainBytes(h)
      == [0x50, 0x8c, 0x5e, 0x8c] + [0x32, 0x7c, 0x14, 0xe2] + [0xe1, 0xa7, 0x2b, 0xa3] + [0x4e, 0xeb, 0x45, 0x2f]
         + [0x37, 0x45, 0x8b, 0x20] + [0x9e, 0xd6, 0x3a, 0x29] + [0x4d, 0x99, 0x9b, 0x4c] + [0x86, 0x67, 0x59, 0x82]
  {
    hide Bv, ChainBytes, WordBytes;
    ChainBytesFrom(h);
    BytesOf(h[0], 0x8c5e_8c50, 0x50, 0x8c, 0x5e, 0x8c);
    BytesOf(h[1], 0xe214_7c32, 0x32, 0x7c, 0x14, 0xe2);
    BytesOf(h[2], 0xa32b_a7e1, 0xe1, 0xa7, 0x2b, 0xa3);
    BytesOf(h[3], 0x2f45_eb4e, 0x4e, 0xeb, 0x45, 0x2f);
    BytesOf(h[4], 0x208b_4537, 0x37, 0x45, 0x8b, 0x20);
    BytesOf(h[5], 0x293a_d69e, 0x9e, 0xd6, 0x3a, 0x29);
    BytesOf(h[6], 0x4c9b_994d, 0x4d, 0x99, 0x9b, 0x4c);
    BytesOf(h[7], 0x8259_6786, 0x86, 0x67, 0x59, 0x82);
  }

  lemma AbcBlock(block: Block)
    requires block == Filled([0x61, 0x62, 0x63])
    ensures View(MessageWords(block))
      == V(0x0063_6261, 0x0000_0000, 0x0000_0000, 0x0000_0000, 0x0000_0000, 0x0000_0000, 0x0000_0000, 0x0000_0000,
          0x0000_0000, 0x0000_0000, 0x0000_0000, 0x0000_0000, 0x0000_0000, 0x0000_0000, 0x0000_0000, 0x0000_0000)
  {
    hide View, MessageWords;
    WordOf(block, 0, 0x61, 0x62, 0x63, 0x00);
    WordOf(block, 1, 0x00, 0x00, 0x00, 0x00);
    WordOf(block, 2, 0x00, 0x00, 0x00, 0x00);
    WordOf(block, 3, 0x00, 0x00, 0x00, 0x00);
    WordOf(block, 4, 0x00, 0x00, 0x00, 0x00);
    WordOf(block, 5, 0x00, 0x00, 0x00, 0x00);
    WordOf(block, 6, 0x00, 0x00, 0x00, 0x00);
    WordOf(block, 7, 0x00, 0x00, 0x00, 0x00);
    WordOf(block, 8, 0x00, 0x00, 0x00, 0x00);
    WordOf(block, 9, 0x00, 0x00, 0x00, 0x00);
    WordOf(block, 10, 0x00, 0x00, 0x00, 0x00);
    WordOf(block, 11, 0x00, 0x00, 0x00, 0x00);
    WordOf(block, 12, 0x00, 0x00, 0x00, 0x00);
    WordOf(block, 13, 0x00, 0x00, 0x00, 0x00);
    WordOf(block, 14, 0x00, 0x00, 0x00, 0x00);
    WordOf(block, 15, 0x00, 0x00, 0x00, 0x00);
    MessageIs(MessageWords(block), V(0x0063_6261, 0x0000_0000, 0x0000_0000, 0x0000_0000, 0x0000_0000, 0x0000_0000, 0x0000_0000, 0x0000_0000,
                0x0000_0000, 0x0000_0000, 0x0000_0000, 0x0000_0000, 0x0000_0000, 0x0000_0000, 0x0000_0000, 0x0000_0000));
  }

  lemma AbcStart()
    ensures ChainView(Start(0, 32)) == W(0x6b08_e647, 0xbb67_ae85, 0x3c6e_f372, 0xa54f_f53a, 0x510e_527f, 0x9b05_688c, 0x1f83_d9ab, 0x5be0_cd19)
  {
    StartIs(0, 32);
    hide Bv, ChainView, Start;
    WordIs(0, 0);
    WordIs(32, 32);
  }

  /** The example of RFC 7693, appendix B. */
  lemma DigestOfAbc()
    ensures Blake2s([], [0x61, 0x62, 0x63], 32)
      == [0x50, 0x8c, 0x5e, 0x8c] + [0x32, 0x7c, 0x14, 0xe2] + [0xe1, 0xa7, 0x2b, 0xa3] + [0x4e, 0xeb, 0x45, 0x2f]
         + [0x37, 0x45, 0x8b, 0x20] + [0x9e, 0xd6, 0x3a, 0x29] + [0x4d, 0x99, 0x9b, 0x4c] + [0x86, 0x67, 0x59, 0x82]
  {
    hide *;
    OneBlock([0x61, 0x62, 0x63], 32);
    AbcStart();
    AbcBlock(Filled([0x61, 0x62, 0x63]));
    AbcCompression(Start(0, 32), Filled([0x61, 0x62, 0x63]));
    AbcBytes(F(Start(0, 32), Filled([0x61, 0x62, 0x63]), 3, true));
  }
}
