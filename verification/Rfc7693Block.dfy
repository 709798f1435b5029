/** The digest of the 64 bytes from 0 to 63: one full block, in which no two words are equal. */
module Rfc7693Block {
  import opened Words
  import opened BvWords
  import opened Rfc7693
  import opened Rfc7693Vectors

  /** The bytes 0, 1, 2, ... */
  function Ascending(n: nat): (b: seq<u8>)
    requires n <= 256
    ensures |b| == n
  {
    seq(n, i requires 0 <= i < n => i as u8)
  }

  const Block0 := V(0x6b08_e647, 0xbb67_ae85, 0x3c6e_f372, 0xa54f_f53a, 0x510e_527f, 0x9b05_688c, 0x1f83_d9ab, 0x5be0_cd19,
        0x6a09_e667, 0xbb67_ae85, 0x3c6e_f372, 0xa54f_f53a, 0x510e_523f, 0x9b05_688c, 0xe07c_2654, 0x5be0_cd19)

  const Block1 := V(0x551a_e487, 0xe4da_2403, 0xa9bd_8475, 0x9cff_5828, 0xb1c1_37b7, 0x2111_91b6, 0x1c80_76e8, 0xbfd9_1c64,
        0x0b19_e36b, 0x17f2_8882, 0x09d1_65fa, 0x8768_d435, 0x167c_077f, 0xaa7c_f6cd, 0xbd0f_4bb0, 0x1161_de54)

  const Block2 := V(0x3b9d_4616, 0x5b27_be34, 0x80a2_323c, 0x52d8_4ec6, 0x4b79_fc2b, 0xa72d_d3f5, 0x6ac3_68a8, 0xc226_abf3,
        0x8f2a_0fe5, 0x3be6_9746, 0xe47b_6b4e, 0x7611_ba9c, 0x62fb_bc52, 0xefed_5a25, 0x29a5_aa70, 0xb200_84a0)

  const Block3 := V(0xaf35_0697, 0x3dea_9efb, 0x6b20_3d35, 0x2df0_df0a, 0x7b7e_656b, 0xaadc_b9f4, 0xda9c_0ab4, 0x695d_5939,
        0x7343_0219, 0x3c6d_fefb, 0xbd73_7c02, 0xc25f_ad9f, 0x3c65_ee38, 0xda6e_9792, 0x75ea_aa99, 0xd19f_faa2)

  const Block4 := V(0x154a_0882, 0xc0f8_72a9, 0xcda5_fa80, 0x1ae3_ce5d, 0xd537_d0fc, 0x7427_0b05, 0x804a_803d, 0x15f6_c727,
        0xaa89_2030, 0x8663_848e, 0x5b72_07ba, 0x2a63_780d, 0xff65_86f3, 0x98e2_e581, 0x1425_2609, 0xe8d5_629a)

  const Block5 := V(0x4530_6eff, 0x5e9f_47fd, 0xfa8a_3725, 0x5122_d27e, 0xb251_4014, 0x0b6d_117f, 0xd8a1_139a, 0x84d8_64df,
        0xdc67_9f9a, 0x3909_446f, 0xa5a5_1916, 0x51f3_a0a6, 0x823f_0cc3, 0xd1c0_b424, 0x2e86_d627, 0x8564_de23)

  const Block6 := V(0x07a2_d7eb, 0x980d_89fb, 0x1dbb_754a, 0x87bd_cffc, 0x4742_3157, 0x8d84_0485, 0x609e_81e0, 0xa072_b93b,
        0xf3ee_74a2, 0x1981_3072, 0x0f38_3338, 0x78ec_244b, 0x3e80_fb15, 0x7000_a680, 0xb405_7018, 0xfb58_499d)

  const Block7 := V(0x9a74_bcbe, 0x2fbd_9a24, 0x9aa0_6aa6, 0xe453_8527, 0x9d97_659e, 0x4aff_b34b, 0x19e8_1fda, 0x64fc_7e29,
        0x0689_2609, 0x0014_3841, 0xa1f4_9273, 0xa85d_4eff, 0x19bd_540f, 0x7712_1f33, 0x1aa3_ea9f, 0x787c_f68f)

  const Block8 := V(0xafe5_b773, 0x7c7e_4164, 0x372d_a8b3, 0x6413_8a33, 0x1f0a_ef51, 0x7771_6f36, 0x2383_8a59, 0x022f_3f6c,
        0x8962_1be7, 0x1f49_b200, 0xae82_d736, 0xa79a_2122, 0x4d1b_a906, 0xca47_e0f0, 0x3d22_ff70, 0xab04_5142)

  const Block9 := V(0xe8de_94ca, 0x323c_a86b, 0x0141_7812, 0x8e20_a95a, 0xc396_3785, 0xcd87_0523, 0x5b72_8f73, 0x2ee7_0294,
        0xe5f2_f14c, 0x69ea_170f, 0x4e7b_64fb, 0x7708_f986, 0xb147_4f87, 0x7b5e_0394, 0x22ec_9d44, 0xc6e8_b8d7)

  const Block10 := V(0x52ce_3f4f, 0x01dc_d057, 0x7143_ac5d, 0xaa91_070d, 0xc0c4_a8c8, 0x8f69_38ec, 0xce79_480d, 0x4c13_73b9,
        0xb288_2a5e, 0x2ac5_2b44, 0x1f66_adee, 0x5e43_3ae7, 0x8a05_90bf, 0xdb58_a660, 0xe268_4fbb, 0x2959_5418)

  lemma BlockRound0()
    ensures Diagonal(Column(Block0, W(0x0302_0100, 0x0706_0504, 0x0b0a_0908, 0x0f0e_0d0c, 0x1312_1110, 0x1716_1514, 0x1b1a_1918, 0x1f1e_1d1c)),
                     W(0x2322_2120, 0x2726_2524, 0x2b2a_2928, 0x2f2e_2d2c, 0x3332_3130, 0x3736_3534, 0x3b3a_3938, 0x3f3e_3d3c)) == Block1
  {
  }

  lemma BlockRound1()
    ensures Diagonal(Column(Block1, W(0x3b3a_3938, 0x2b2a_2928, 0x1312_1110, 0x2322_2120, 0x2726_2524, 0x3f3e_3d3c, 0x3736_3534, 0x1b1a_1918)),
                     W(0x0706_0504, 0x3332_3130, 0x0302_0100, 0x0b0a_0908, 0x2f2e_2d2c, 0x1f1e_1d1c, 0x1716_1514, 0x0f0e_0d0c)) == Block2
  {
  }

  lemma BlockRound2()
    ensures Diagonal(Column(Block2, W(0x2f2e_2d2c, 0x2322_2120, 0x3332_3130, 0x0302_0100, 0x1716_1514, 0x0b0a_0908, 0x3f3e_3d3c, 0x3736_3534)),
                     W(0x2b2a_2928, 0x3b3a_3938, 0x0f0e_0d0c, 0x1b1a_1918, 0x1f1e_1d1c, 0x0706_0504, 0x2726_2524, 0x1312_1110)) == Block3
  {
  }

  lemma BlockRound3()
    ensures Diagonal(Column(Block3, W(0x1f1e_1d1c, 0x2726_2524, 0x0f0e_0d0c, 0x0706_0504, 0x3736_3534, 0x3332_3130, 0x2f2e_2d2c, 0x3b3a_3938)),
                     W(0x0b0a_0908, 0x1b1a_1918, 0x1716_1514, 0x2b2a_2928, 0x1312_1110, 0x0302_0100, 0x3f3e_3d3c, 0x2322_2120)) == Block4
  {
  }

  lemma BlockRound4()
    ensures Diagonal(Column(Block4, W(0x2726_2524, 0x0302_0100, 0x1716_1514, 0x1f1e_1d1c, 0x0b0a_0908, 0x1312_1110, 0x2b2a_2928, 0x3f3e_3d3c)),
                     W(0x3b3a_3938, 0x0706_0504, 0x2f2e_2d2c, 0x3332_3130, 0x1b1a_1918, 0x2322_2120, 0x0f0e_0d0c, 0x3736_3534)) == Block5
  {
  }

  lemma BlockRound5()
    ensures Diagonal(Column(Block5, W(0x0b0a_0908, 0x3332_3130, 0x1b1a_1918, 0x2b2a_2928, 0x0302_0100, 0x2f2e_2d2c, 0x2322_2120, 0x0f0e_0d0c)),
                     W(0x1312_1110, 0x3736_3534, 0x1f1e_1d1c, 0x1716_1514, 0x3f3e_3d3c, 0x3b3a_3938, 0x0706_0504, 0x2726_2524)) == Block6
  {
  }

  lemma BlockRound6()
    ensures Diagonal(Column(Block6, W(0x3332_3130, 0x1716_1514, 0x0706_0504, 0x3f3e_3d3c, 0x3b3a_3938, 0x3736_3534, 0x1312_1110, 0x2b2a_2928)),
                     W(0x0302_0100, 0x1f1e_1d1c, 0x1b1a_1918, 0x0f0e_0d0c, 0x2726_2524, 0x0b0a_0908, 0x2322_2120, 0x2f2e_2d2c)) == Block7
  {
  }

  lemma BlockRound7()
    ensures Diagonal(Column(Block7, W(0x3736_3534, 0x2f2e_2d2c, 0x1f1e_1d1c, 0x3b3a_3938, 0x3332_3130, 0x0706_0504, 0x0f0e_0d0c, 0x2726_2524)),
                     W(0x1716_1514, 0x0302_0100, 0x3f3e_3d3c, 0x1312_1110, 0x2322_2120, 0x1b1a_1918, 0x0b0a_0908, 0x2b2a_2928)) == Block8
  {
  }

  lemma BlockRound8()
    ensures Diagonal(Column(Block8, W(0x1b1a_1918, 0x3f3e_3d3c, 0x3b3a_3938, 0x2726_2524, 0x2f2e_2d2c, 0x0f0e_0d0c, 0x0302_0100, 0x2322_2120)),
                     W(0x3332_3130, 0x0b0a_0908, 0x3736_3534, 0x1f1e_1d1c, 0x0706_0504, 0x1312_1110, 0x2b2a_2928, 0x1716_1514)) == Block9
  {
  }

  lemma BlockRound9()
    ensures Diagonal(Column(Block9, W(0x2b2a_2928, 0x0b0a_0908, 0x2322_2120, 0x1312_1110, 0x1f1e_1d1c, 0x1b1a_1918, 0x0706_0504, 0x1716_1514)),
                     W(0x3f3e_3d3c, 0x2f2e_2d2c, 0x2726_2524, 0x3b3a_3938, 0x0f0e_0d0c, 0x3332_3130, 0x3736_3534, 0x0302_0100)) == Block10
  {
  }

  lemma BlockRounds(v: State, m: State)
    requires View(v) == Block0
    requires View(m) == V(0x0302_0100, 0x0706_0504, 0x0b0a_0908, 0x0f0e_0d0c, 0x1312_1110, 0x1716_1514, 0x1b1a_1918, 0x1f1e_1d1c,
        0x2322_2120, 0x2726_2524, 0x2b2a_2928, 0x2f2e_2d2c, 0x3332_3130, 0x3736_3534, 0x3b3a_3938, 0x3f3e_3d3c)
    ensures View(Rounds(v, m, 10)) == Block10
  {
    hide Column, Diagonal, View, Rounds;
    assert View(Rounds(v, m, 0)) == View(v) by { NoRounds(v, m); }
    RoundIs(v, m, 0);
    BlockRound0();
    RoundIs(v, m, 1);
    BlockRound1();
    RoundIs(v, m, 2);
    BlockRound2();
    RoundIs(v, m, 3);
    BlockRound3();
    RoundIs(v, m, 4);
    BlockRound4();
    RoundIs(v, m, 5);
    BlockRound5();
    RoundIs(v, m, 6);
    BlockRound6();
    RoundIs(v, m, 7);
    BlockRound7();
    RoundIs(v, m, 8);
    BlockRound8();
    RoundIs(v, m, 9);
    BlockRound9();
  }

  lemma BlockCompression(h: Chain, block: Block)
    requires ChainView(h) == W(0x6b08_e647, 0xbb67_ae85, 0x3c6e_f372, 0xa54f_f53a, 0x510e_527f, 0x9b05_688c, 0x1f83_d9ab, 0x5be0_cd19)
    requires View(MessageWords(block))
      == V(0x0302_0100, 0x0706_0504, 0x0b0a_0908, 0x0f0e_0d0c, 0x1312_1110, 0x1716_1514, 0x1b1a_1918, 0x1f1e_1d1c,
          0x2322_2120, 0x2726_2524, 0x2b2a_2928, 0x2f2e_2d2c, 0x3332_3130, 0x3736_3534, 0x3b3a_3938, 0x3f3e_3d3c)
    ensures ChainView(F(h, block, 64, true)) == W(0x8b4e_f356, 0x907e_5596, 0x524b_f2c1, 0x519d_c8d0, 0x1bcf_6a08, 0xcf34_f600, 0x3392_de1d, 0x3eaa_eab8)
  {
    hide Bv, View, ChainView, Rounds, MessageWords, Local, F;
    LocalIs(h, 64, true);
    WordIs(Low(64), 64);
    WordIs(High(64), 0);
    CompressIs(h, block, 64, true);
    BlockRounds(Local(h, 64, true), MessageWords(block));
  }

  lemma BlockBytes(h: Chain)
    requires ChainView(h) == W(0x8b4e_f356, 0x907e_5596, 0x524b_f2c1, 0x519d_c8d0, 0x1bcf_6a08, 0xcf34_f600, 0x3392_de1d, 0x3eaa_eab8)
    ensures ChainBytes(h)
      == [0x56, 0xf3, 0x4e, 0x8b] + [0x96, 0x55, 0x7e, 0x90] + [0xc1, 0xf2, 0x4b, 0x52] + [0xd0, 0xc8, 0x9d, 0x51]
         + [0x08, 0x6a, 0xcf, 0x1b] + [0x00, 0xf6, 0x34, 0xcf] + [0x1d, 0xde, 0x92, 0x33] + [0xb8, 0xea, 0xaa, 0x3e]
  {
    hide Bv, ChainBytes, WordBytes;
    ChainBytesFrom(h);
    BytesOf(h[0], 0x8b4e_f356, 0x56, 0xf3, 0x4e, 0x8b);
    BytesOf(h[1], 0x907e_5596, 0x96, 0x55, 0x7e, 0x90);
    BytesOf(h[2], 0x524b_f2c1, 0xc1, 0xf2, 0x4b, 0x52);
    BytesOf(h[3], 0x519d_c8d0, 0xd0, 0xc8, 0x9d, 0x51);
    BytesOf(h[4], 0x1bcf_6a08, 0x08, 0x6a, 0xcf, 0x1b);
    BytesOf(h[5], 0xcf34_f600, 0x00, 0xf6, 0x34, 0xcf);
    BytesOf(h[6], 0x3392_de1d, 0x1d, 0xde, 0x92, 0x33);
    BytesOf(h[7], 0x3eaa_eab8, 0xb8, 0xea, 0xaa, 0x3e);
  }

  lemma BlockBlock(block: Block)
    requires block == Filled(Ascending(64))
    ensures View(MessageWords(block))
      == V(0x0302_0100, 0x0706_0504, 0x0b0a_0908, 0x0f0e_0d0c, 0x1312_1110, 0x1716_1514, 0x1b1a_1918, 0x1f1e_1d1c,
          0x2322_2120, 0x2726_2524, 0x2b2a_2928, 0x2f2e_2d2c, 0x3332_3130, 0x3736_3534, 0x3b3a_3938, 0x3f3e_3d3c)
  {
    hide View, MessageWords;
    WordOf(block, 0, 0x00, 0x01, 0x02, 0x03);
    WordOf(block, 1, 0x04, 0x05, 0x06, 0x07);
    WordOf(block, 2, 0x08, 0x09, 0x0a, 0x0b);
    WordOf(block, 3, 0x0c, 0x0d, 0x0e, 0x0f);
    WordOf(block, 4, 0x10, 0x11, 0x12, 0x13);
    WordOf(block, 5, 0x14, 0x15, 0x16, 0x17);
    WordOf(block, 6, 0x18, 0x19, 0x1a, 0x1b);
    WordOf(block, 7, 0x1c, 0x1d, 0x1e, 0x1f);
    WordOf(block, 8, 0x20, 0x21, 0x22, 0x23);
    WordOf(block, 9, 0x24, 0x25, 0x26, 0x27);
    WordOf(block, 10, 0x28, 0x29, 0x2a, 0x2b);
    WordOf(block, 11, 0x2c, 0x2d, 0x2e, 0x2f);
    WordOf(block, 12, 0x30, 0x31, 0x32, 0x33);
    WordOf(block, 13, 0x34, 0x35, 0x36, 0x37);
    WordOf(block, 14, 0x38, 0x39, 0x3a, 0x3b);
    WordOf(block, 15, 0x3c, 0x3d, 0x3e, 0x3f);
    MessageIs(MessageWords(block), V(0x0302_0100, 0x0706_0504, 0x0b0a_0908, 0x0f0e_0d0c, 0x1312_1110, 0x1716_1514, 0x1b1a_1918, 0x1f1e_1d1c,
                0x2322_2120, 0x2726_2524, 0x2b2a_2928, 0x2f2e_2d2c, 0x3332_3130, 0x3736_3534, 0x3b3a_3938, 0x3f3e_3d3c));
  }

  lemma BlockStart()
    ensures ChainView(Start(0, 32)) == W(0x6b08_e647, 0xbb67_ae85, 0x3c6e_f372, 0xa54f_f53a, 0x510e_527f, 0x9b05_688c, 0x1f83_d9ab, 0x5be0_cd19)
  {
    StartIs(0, 32);
    hide Bv, ChainView, Start;
    WordIs(0, 0);
    WordIs(32, 32);
  }

  /** The full-block test of the source. */
  lemma DigestOfFullBlock()
    ensures Blake2s([], Ascending(64), 32)
      == [0x56, 0xf3, 0x4e, 0x8b] + [0x96, 0x55, 0x7e, 0x90] + [0xc1, 0xf2, 0x4b, 0x52] + [0xd0, 0xc8, 0x9d, 0x51]
         + [0x08, 0x6a, 0xcf, 0x1b] + [0x00, 0xf6, 0x34, 0xcf] + [0x1d, 0xde, 0x92, 0x33] + [0xb8, 0xea, 0xaa, 0x3e]
  {
    hide *;
    OneBlock(Ascending(64), 32);
    BlockStart();
    BlockBlock(Filled(Ascending(64)));
    BlockCompression(Start(0, 32), Filled(Ascending(64)));
    BlockBytes(F(Start(0, 32), Filled(Ascending(64)), 64, true));
  }
}
