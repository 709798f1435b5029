/** The numeric fact that 36^(p - 1) == 1, by the same addition chain as the inversion: 36 = 4·9 is the factor by
    which the 64-bit ladder's leading zero bit rescales the base point 9. */
module PowersOf36 {
  import opened Powers
  import opened Field25519
  import opened Exponents

  /** x squared n times. */
  function Squared(x: int, n: nat): int
    decreases n
  {
    if n == 0 then x else Squared(FMul(x, x), n - 1)
  }

  lemma SquareStep(x: int, y: int, n: nat)
    requires n > 0 && x * x % P == y
    ensures Squared(x, n) == Squared(y, n - 1)
    ensures n == 1 ==> Squared(x, n) == y
  {
    MulIs(x, x);
  }

  lemma Product(x: int, y: int, z: int)
    requires x * y % P == z
    ensures FMul(x, y) == z
  {
    MulIs(x, y);
  }

  lemma {:induction false} SquaredIsPow(x: int, n: nat)
    requires 0 <= x < P
    ensures Squared(x, n) == FPow(x, Pow2(n))
    decreases n
  {
    if n == 0 {
      PowOne(x);
      RedRange(x);
    } else {
      RedRange(x * x);
      SquaredIsPow(FMul(x, x), n - 1);
      PowSquare(x);
      PowMul(x, 2, Pow2(n - 1));
    }
  }

  lemma PowSquare(x: int)
    ensures FPow(x, 2) == FMul(x, x)
  {
    PowOne(x);
    MulReduceRight(x, x);
    assert FPow(x, 2) == FMul(x, FPow(x, 1));
  }

  lemma {:induction false} SquaredAdd(x: int, m: nat, n: nat)
    ensures Squared(x, m + n) == Squared(Squared(x, m), n)
    decreases m
  {
    hide FMul;
    if m > 0 {
      SquaredAdd(FMul(x, x), m - 1, n);
    }
  }

  /** One link: from 36^(2^j - 1) to 36^(2^(j+k) - 1). */
  lemma Link(j: nat, k: nat, a: int, s: int, b: int, c: int)
    requires a == FPow(36, Ones(j)) && b == FPow(36, Ones(k)) && 0 <= a < P
    requires Squared(a, k) == s && FMul(s, b) == c
    ensures c == FPow(36, Ones(j + k))
  {
    SquaredIsPow(a, k);
    OnesChain(36, j, k);
  }

  lemma Squarings5At0()
    ensures Squared(0x1343093195196b9fcca7c68ce4000000000000000, 5) == 0x55c350bda9ccf76666ea12f1ab853524028ce6c8853f0ba50066fc1260da7d26
  {
    hide Squared, FMul, Red;
    SquareStep(0x1343093195196b9fcca7c68ce4000000000000000, 0x2910a9327780b02ceac400692fb63a2b100000000000003712bae897c8f7fdcc, 5);
    SquareStep(0x2910a9327780b02ceac400692fb63a2b100000000000003712bae897c8f7fdcc, 0x20a2b759e596de8f9ecb7d2f7bc776939d521e9670103a4d29e064cb4683d47, 4);
    SquareStep(0x20a2b759e596de8f9ecb7d2f7bc776939d521e9670103a4d29e064cb4683d47, 0x5352d2427c29fd78657c20c13cfb388f356489fbd3fa42cc45a089ec918895a2, 3);
    SquareStep(0x5352d2427c29fd78657c20c13cfb388f356489fbd3fa42cc45a089ec918895a2, 0x62098550756ba21a634863fb8b6a51460ebf7bea9d9e4164bc1de7bc0a190586, 2);
    SquareStep(0x62098550756ba21a634863fb8b6a51460ebf7bea9d9e4164bc1de7bc0a190586, 0x55c350bda9ccf76666ea12f1ab853524028ce6c8853f0ba50066fc1260da7d26, 1);
  }

  lemma Squarings10At0()
    ensures Squared(0x30ce0e22a08213e19c1967ba8fade8ac3428f894b27ffd5c9fcd7aef72c89003, 10) == 0x726ea67a51e323130f681ce077e78c8010f4cc4e3d3f231ed5b8bf445b52c2f2
  {
    hide Squared, FMul, Red;
    SquareStep(0x30ce0e22a08213e19c1967ba8fade8ac3428f894b27ffd5c9fcd7aef72c89003, 0xdf346bbefc280af78d791fdd93adab8e777ddf6b7e9a1ef0e0b15cde58a68a, 10);
    SquareStep(0xdf346bbefc280af78d791fdd93adab8e777ddf6b7e9a1ef0e0b15cde58a68a, 0x3aa2d2ae64d55d6825f8c84509b4d6b912466874d00c6242eac0e01c35b1219b, 9);
    SquareStep(0x3aa2d2ae64d55d6825f8c84509b4d6b912466874d00c6242eac0e01c35b1219b, 0x293312faa73f97b90fd7053f6fc53db3ae8f1ef291ff34d1e6701db6477236e2, 8);
    SquareStep(0x293312faa73f97b90fd7053f6fc53db3ae8f1ef291ff34d1e6701db6477236e2, 0x3ec76c1dc54c54906b10ddc109466aab57ad721c64ce82c9eb257a49ac01545, 7);
    SquareStep(0x3ec76c1dc54c54906b10ddc109466aab57ad721c64ce82c9eb257a49ac01545, 0x574f93e1ade34ca09d0cad2b0a0e2c198b16a1dea561d6013235ecfd6fadfbe8, 6);
    SquareStep(0x574f93e1ade34ca09d0cad2b0a0e2c198b16a1dea561d6013235ecfd6fadfbe8, 0x771c00f94cd848d4fbfae254895b30ec5aea5da575af5ff9048b1f2f7b136725, 5);
    SquareStep(0x771c00f94cd848d4fbfae254895b30ec5aea5da575af5ff9048b1f2f7b136725, 0x25d009f5fefca9e9243de51e0a0d4cb3fb2cb54e7599f5047f16ed3e1933dbdf, 4);
    SquareStep(0x25d009f5fefca9e9243de51e0a0d4cb3fb2cb54e7599f5047f16ed3e1933dbdf, 0x36a8751c1b3b7ea91920aa01bf7c21791a5a0d17385840bb81cf9b3a5c4904c2, 3);
    SquareStep(0x36a8751c1b3b7ea91920aa01bf7c21791a5a0d17385840bb81cf9b3a5c4904c2, 0x4a5b55bf9cf7ffd593a6e513fd4672f09f8e5b98feee42df7fd4efa4e53c21a2, 2);
    SquareStep(0x4a5b55bf9cf7ffd593a6e513fd4672f09f8e5b98feee42df7fd4efa4e53c21a2, 0x726ea67a51e323130f681ce077e78c8010f4cc4e3d3f231ed5b8bf445b52c2f2, 1);
  }

  lemma Squarings20At0()
    ensures Squared(0x56641fe5bf75b6fbcff3cfce62935ce811444e5f8961c13c1aac194836b4fc03, 20) == 0x68bdcdcd30947166ff4edb7f20684ce706cc4c99a5d088351448328b708d0582
  {
    hide Squared, FMul, Red;
    SquareStep(0x56641fe5bf75b6fbcff3cfce62935ce811444e5f8961c13c1aac194836b4fc03, 0x1558a6ea61c6fd6a1df11f109f3b28fd7d2a14c2b19b8eae87a22a6eaa123ade, 20);
    SquareStep(0x1558a6ea61c6fd6a1df11f109f3b28fd7d2a14c2b19b8eae87a22a6eaa123ade, 0x52b8d9ba96b1330455d82aec2aadea6be7551764ce036b621234d33740e3f972, 19);
    SquareStep(0x52b8d9ba96b1330455d82aec2aadea6be7551764ce036b621234d33740e3f972, 0x9f30ea4d95ebd0d0934eb6a187b39a71e82ed9d60dcfd93a64a8eb6628afadd, 18);
    SquareStep(0x9f30ea4d95ebd0d0934eb6a187b39a71e82ed9d60dcfd93a64a8eb6628afadd, 0x16f277cbb9ef32726d2385770f5db2c59ee8474f67cd43040ed80b3a3109e290, 17);
    SquareStep(0x16f277cbb9ef32726d2385770f5db2c59ee8474f67cd43040ed80b3a3109e290, 0x306b3896cd281ce5c8a734e55d182a99b20d158c007c123346d467205a7c53bf, 16);
    SquareStep(0x306b3896cd281ce5c8a734e55d182a99b20d158c007c123346d467205a7c53bf, 0x25ab0cc1771d679cde6f7830d746a230e9e2b3ef46799f0d93f7e60e6ca9d5a5, 15);
    SquareStep(0x25ab0cc1771d679cde6f7830d746a230e9e2b3ef46799f0d93f7e60e6ca9d5a5, 0x3f7a2cb1f1f10a11f0b496686a3c1911e5984997fdcf5fe561e299e9abf0540c, 14);
    SquareStep(0x3f7a2cb1f1f10a11f0b496686a3c1911e5984997fdcf5fe561e299e9abf0540c, 0x437e305eb5aaaf9aeb359464138f73e8c1ddcea58e9cf49eb3dfc75de35b0c31, 13);
    SquareStep(0x437e305eb5aaaf9aeb359464138f73e8c1ddcea58e9cf49eb3dfc75de35b0c31, 0x7e181fea25a7c603f6152313ec4d1a6155c4524dc9ec88805bb253e10eb5c7a, 12);
    SquareStep(0x7e181fea25a7c603f6152313ec4d1a6155c4524dc9ec88805bb253e10eb5c7a, 0x1035a31d53135c5953e80cac403560acc34c541e452041f69d0633c99c8ede4d, 11);
    SquareStep(0x1035a31d53135c5953e80cac403560acc34c541e452041f69d0633c99c8ede4d, 0x6565e80bbe6f39724c80cd0645210e2cf2331e0a9240808e4bb9c906dd91d528, 10);
    SquareStep(0x6565e80bbe6f39724c80cd0645210e2cf2331e0a9240808e4bb9c906dd91d528, 0x2a2dc001f36a5a4305eadd68a732931d665b70017faab40dc1144c230df07ec0, 9);
    SquareStep(0x2a2dc001f36a5a4305eadd68a732931d665b70017faab40dc1144c230df07ec0, 0x1ae9bd4e66b45dd5221871ec0a941065d3a0858acb1cfcadc8bd4a48ffa937dd, 8);
    SquareStep(0x1ae9bd4e66b45dd5221871ec0a941065d3a0858acb1cfcadc8bd4a48ffa937dd, 0x77d24b25d1a21437f61ce71b61aca0c71ccc11c27e76bb8dd54da8e8c4694145, 7);
    SquareStep(0x77d24b25d1a21437f61ce71b61aca0c71ccc11c27e76bb8dd54da8e8c4694145, 0x5274f6d7487738cc6def2f7ce5b271b519694b2d429668a1b8eeb81043a7f5a9, 6);
    SquareStep(0x5274f6d7487738cc6def2f7ce5b271b519694b2d429668a1b8eeb81043a7f5a9, 0x743d91a72e62bd0f0dfd3ebc07e29d872b687edb2940bb2ba733c7eb41835308, 5);
    SquareStep(0x743d91a72e62bd0f0dfd3ebc07e29d872b687edb2940bb2ba733c7eb41835308, 0x552d1309bb89d7b810681790ee86d3308823c6f25a8c54ec7a8319fa8c68f4b9, 4);
    SquareStep(0x552d1309bb89d7b810681790ee86d3308823c6f25a8c54ec7a8319fa8c68f4b9, 0xf78e607ae840a1c5ffb82ef0802f0b0afbc4c42265a9351049862323bd735a6, 3);
    SquareStep(0xf78e607ae840a1c5ffb82ef0802f0b0afbc4c42265a9351049862323bd735a6, 0x6e77517a3d736166d7092c6eae0a52c85a8cb7265a6aa939d0b6c9142c1deca6, 2);
    SquareStep(0x6e77517a3d736166d7092c6eae0a52c85a8cb7265a6aa939d0b6c9142c1deca6, 0x68bdcdcd30947166ff4edb7f20684ce706cc4c99a5d088351448328b708d0582, 1);
  }

  lemma Squarings40At0()
    ensures Squared(0x3f018d15502bd983704c5d31d33440c1bcbe7a950300703c77ff489c74ce3181, 10) == 0x322e0b89516c8c54c1e999490730e43687d10652878392ec4b9597f46dc8e2fe
  {
    hide Squared, FMul, Red;
    SquareStep(0x3f018d15502bd983704c5d31d33440c1bcbe7a950300703c77ff489c74ce3181, 0x14500528e7ab72bf0e203b462c3d5cfce2a18fef39a225156b3ada575e1eb9bd, 10);
    SquareStep(0x14500528e7ab72bf0e203b462c3d5cfce2a18fef39a225156b3ada575e1eb9bd, 0x9e8a2de283d8456d05c0b8f3a64517228affe1d3cd17d096d544b986c338ff1, 9);
    SquareStep(0x9e8a2de283d8456d05c0b8f3a64517228affe1d3cd17d096d544b986c338ff1, 0x67ac10ace5d8d78216b78118fd8d4272b94cc022219e5acfeb60295d3c802727, 8);
    SquareStep(0x67ac10ace5d8d78216b78118fd8d4272b94cc022219e5acfeb60295d3c802727, 0x6e2472c9dc7ec7ee9a3113ba4e299ddb3d5f67fa3fde73badf9d2b7567683f91, 7);
    SquareStep(0x6e2472c9dc7ec7ee9a3113ba4e299ddb3d5f67fa3fde73badf9d2b7567683f91, 0x4c825ef9707aadf90be93c102ac4242930f1c735130826d527562d21d610ea9b, 6);
    SquareStep(0x4c825ef9707aadf90be93c102ac4242930f1c735130826d527562d21d610ea9b, 0x8abd051e417ca3da1cf937ee4a706cee51f4ffe560ef515378138eb1c6a2b74, 5);
    SquareStep(0x8abd051e417ca3da1cf937ee4a706cee51f4ffe560ef515378138eb1c6a2b74, 0x16d616f7b9f252895283fdf0a0caf90eacd5d1a7cc229034eb8d7b09ad01656f, 4);
    SquareStep(0x16d616f7b9f252895283fdf0a0caf90eacd5d1a7cc229034eb8d7b09ad01656f, 0x6080132e7229eeed28acbfa6b11dadc9c41647f5270c95d718cb3b48d528c56c, 3);
    SquareStep(0x6080132e7229eeed28acbfa6b11dadc9c41647f5270c95d718cb3b48d528c56c, 0x8a13be81e5c31594f778c06b2b3eb0224763b9fef2aab0a602fc6a7f46c0186, 2);
    SquareStep(0x8a13be81e5c31594f778c06b2b3eb0224763b9fef2aab0a602fc6a7f46c0186, 0x322e0b89516c8c54c1e999490730e43687d10652878392ec4b9597f46dc8e2fe, 1);
  }

  lemma Squarings50At0()
    ensures Squared(0x1134c36f4b46fcb6152e26783702f70bbeb4d02f488573fc07b3d72e96144e6b, 25) == 0x19012ffb473dd590ee2eaed92bf8991f10dfabd727da6e8254db4dd9a1ada141
  {
    hide Squared, FMul, Red;
    SquareStep(0x1134c36f4b46fcb6152e26783702f70bbeb4d02f488573fc07b3d72e96144e6b, 0x5fdee64add240e74e659e3d2abece8409e2a996e10ffa5021d345b714587e6e5, 25);
    SquareStep(0x5fdee64add240e74e659e3d2abece8409e2a996e10ffa5021d345b714587e6e5, 0x50e3d936aa245b9b97c03fdddf92f3d85209a4111bc02456084b73774582bdd, 24);
    SquareStep(0x50e3d936aa245b9b97c03fdddf92f3d85209a4111bc02456084b73774582bdd, 0x7638c076e8bfff9dfb3046e40130ccd31a5a446a1be242cdb129ca718373bdec, 23);
    SquareStep(0x7638c076e8bfff9dfb3046e40130ccd31a5a446a1be242cdb129ca718373bdec, 0xa4fdc5797624ba3b76b587a2672c82c472f56f46a45020e6058dc3487e3f2df, 22);
    SquareStep(0xa4fdc5797624ba3b76b587a2672c82c472f56f46a45020e6058dc3487e3f2df, 0x609cee20b49eb87ccb198a91e8e3f34a83c6655523bfd4fdb91d3408c4159441, 21);
    SquareStep(0x609cee20b49eb87ccb198a91e8e3f34a83c6655523bfd4fdb91d3408c4159441, 0x46375bfa66b9e6736d67c8db6d82f40726304f46c42a885f1e65f8564864fb65, 20);
    SquareStep(0x46375bfa66b9e6736d67c8db6d82f40726304f46c42a885f1e65f8564864fb65, 0x521895097f3c64e5454c3a2afbdd592706f92ac7f0b6d4c8e5b4ec89b327b3c1, 19);
    SquareStep(0x521895097f3c64e5454c3a2afbdd592706f92ac7f0b6d4c8e5b4ec89b327b3c1, 0x260bc958b352081e3db299bf32ac8c574af3fd91f7dc590eec3d6847e541995c, 18);
    SquareStep(0x260bc958b352081e3db299bf32ac8c574af3fd91f7dc590eec3d6847e541995c, 0x5af01b0c56d3dfa38d0962cf1a1f3c114a52a44897b55e3218f2858e44134342, 17);
    SquareStep(0x5af01b0c56d3dfa38d0962cf1a1f3c114a52a44897b55e3218f2858e44134342, 0x56ef8e0aab86f6c0551b15aa23b61b4c4b97f8df95eef33e6ad323799ed4460, 16);
    SquareStep(0x56ef8e0aab86f6c0551b15aa23b61b4c4b97f8df95eef33e6ad323799ed4460, 0x43bdd39571923ca85b5bbab459804f071eefe2a8237e6e8188c745a076000323, 15);
    SquareStep(0x43bdd39571923ca85b5bbab459804f071eefe2a8237e6e8188c745a076000323, 0x1cae6d261cdf629f0e3fb746b3ddcf15dce0a4b66e43c4a2ed98f634dab048de, 14);
    SquareStep(0x1cae6d261cdf629f0e3fb746b3ddcf15dce0a4b66e43c4a2ed98f634dab048de, 0x740c50f8e7b9aa3a6f439511bce5cf5f4ddab7a6e63dd8388027c68790bfdc58, 13);
    SquareStep(0x740c50f8e7b9aa3a6f439511bce5cf5f4ddab7a6e63dd8388027c68790bfdc58, 0x17f7ef90d504bc9c3c66c64c60dd2501a78fab32a668dbd640558589cf8ab818, 12);
    SquareStep(0x17f7ef90d504bc9c3c66c64c60dd2501a78fab32a668dbd640558589cf8ab818, 0x5d2afae7a53dd287b8c6555ff1a1050c0f72198f8c6cc51e60aced6f6e41c120, 11);
    SquareStep(0x5d2afae7a53dd287b8c6555ff1a1050c0f72198f8c6cc51e60aced6f6e41c120, 0x6529e448347a48a5750288ba103661e1e5756e0e6eb0c165a8895ea81dc0f47f, 10);
    SquareStep(0x6529e448347a48a5750288ba103661e1e5756e0e6eb0c165a8895ea81dc0f47f, 0x67e1ebbbceee72781012380f781dba4a73ef4da63e47aee5de1c91765e5619e8, 9);
    SquareStep(0x67e1ebbbceee72781012380f781dba4a73ef4da63e47aee5de1c91765e5619e8, 0x6c07e6e07fb6cb09e44233051cad1757d636246f759f0a0db98c6ca151626c86, 8);
    SquareStep(0x6c07e6e07fb6cb09e44233051cad1757d636246f759f0a0db98c6ca151626c86, 0xdfbb9132e144b6c7f7bf52988d2a10778790f22ff7931a3e86b648c532c4039, 7);
    SquareStep(0xdfbb9132e144b6c7f7bf52988d2a10778790f22ff7931a3e86b648c532c4039, 0xab01a1d75f0515bdb7a4bfa27d0f7489a1ea0b3dfc0ac8f52e7331894dc4c2e, 6);
    SquareStep(0xab01a1d75f0515bdb7a4bfa27d0f7489a1ea0b3dfc0ac8f52e7331894dc4c2e, 0x1aea0192d9264c44eb894495626f0594f2b2500447f20f75aab56415d9060810, 5);
    SquareStep(0x1aea0192d9264c44eb894495626f0594f2b2500447f20f75aab56415d9060810, 0x356e5b231cf3d4a87ede1293183848ee7ec8e86581e72ecdbc1c9ff2482bb166, 4);
    SquareStep(0x356e5b231cf3d4a87ede1293183848ee7ec8e86581e72ecdbc1c9ff2482bb166, 0x2fa322e22376225b2a3e6d57e3ec1478622b9389b382a73143e21e042f5c9d42, 3);
    SquareStep(0x2fa322e22376225b2a3e6d57e3ec1478622b9389b382a73143e21e042f5c9d42, 0x4ed4e336a03d94671df0fe0c0e9e3c3645ad185d367f23a98836870a12c185d3, 2);
    SquareStep(0x4ed4e336a03d94671df0fe0c0e9e3c3645ad185d367f23a98836870a12c185d3, 0x19012ffb473dd590ee2eaed92bf8991f10dfabd727da6e8254db4dd9a1ada141, 1);
  }

  lemma Squarings50At25()
    ensures Squared(0x19012ffb473dd590ee2eaed92bf8991f10dfabd727da6e8254db4dd9a1ada141, 25) == 0x5c09e705c4a3c0e85b39d7c414a1de72f677208f902f94c0bc4047b1eb4b9114
  {
    hide Squared, FMul, Red;
    SquareStep(0x19012ffb473dd590ee2eaed92bf8991f10dfabd727da6e8254db4dd9a1ada141, 0xac0e0b53b5da87d8d289283ae749900a630a2bc9b165e8fb28847c4a791935a, 25);
    SquareStep(0xac0e0b53b5da87d8d289283ae749900a630a2bc9b165e8fb28847c4a791935a, 0x57c33103ef329acd42cbc2a1cb87d0b1f4aa88addc35948ee05d0167ae9314c0, 24);
    SquareStep(0x57c33103ef329acd42cbc2a1cb87d0b1f4aa88addc35948ee05d0167ae9314c0, 0xd7ec8b0a32af0ff18f855e6379633aed46ce5357c093db9dd2f52ef86e9096a, 23);
    SquareStep(0xd7ec8b0a32af0ff18f855e6379633aed46ce5357c093db9dd2f52ef86e9096a, 0x41771269a592053fdb57b9016c9971f0c4a9382b1673c9395339d26d8a7c175a, 22);
    SquareStep(0x41771269a592053fdb57b9016c9971f0c4a9382b1673c9395339d26d8a7c175a, 0x7a88e1640d5174bd0570a771244e053401484437ed016c0ee713d0c148833f2d, 21);
    SquareStep(0x7a88e1640d5174bd0570a771244e053401484437ed016c0ee713d0c148833f2d, 0x5557c093406ffb11c6bfce2d78c67939ec4cd12c69f70007dc9fd9ca5536a026, 20);
    SquareStep(0x5557c093406ffb11c6bfce2d78c67939ec4cd12c69f70007dc9fd9ca5536a026, 0x464821a11e7812da9a7e3f4a90228758b67ebb67c0c23d29f8cbbf7e4c47297f, 19);
    SquareStep(0x464821a11e7812da9a7e3f4a90228758b67ebb67c0c23d29f8cbbf7e4c47297f, 0x5769831847b477b10eb92d775a2d33df27d0f2952c4e817c6eb564912a863643, 18);
    SquareStep(0x5769831847b477b10eb92d775a2d33df27d0f2952c4e817c6eb564912a863643, 0x58d6ca8a8c52d6a4daebd3aa02049171733ad54e70c4715d5b03452c4f2cd174, 17);
    SquareStep(0x58d6ca8a8c52d6a4daebd3aa02049171733ad54e70c4715d5b03452c4f2cd174, 0x22fa497e1eaf9f068d0f09a234c68e2b023b79e549d044ee77529658ef693999, 16);
    SquareStep(0x22fa497e1eaf9f068d0f09a234c68e2b023b79e549d044ee77529658ef693999, 0x5eea2c4ffb818d86dadce9cc41e1165858651f0565c96405bc3e8a746b84e295, 15);
    SquareStep(0x5eea2c4ffb818d86dadce9cc41e1165858651f0565c96405bc3e8a746b84e295, 0x3bbee95b957426c2714a9a52180aa83d63cf7543eb65d99470b3353a67d09040, 14);
    SquareStep(0x3bbee95b957426c2714a9a52180aa83d63cf7543eb65d99470b3353a67d09040, 0x765ef77d429c25a7340111dccc2f8174c4013a5896071ebe938581a45e638db4, 13);
    SquareStep(0x765ef77d429c25a7340111dccc2f8174c4013a5896071ebe938581a45e638db4, 0x40b8cbc7dbb100ecc1d5ae3bc57e5ddfecd3f7fa55da161cb62cbdffb599db8b, 12);
    SquareStep(0x40b8cbc7dbb100ecc1d5ae3bc57e5ddfecd3f7fa55da161cb62cbdffb599db8b, 0x73f0c49be96dd0f75939b9336b570fa8a715204dfd740c66c651c7e70d7f0ece, 11);
    SquareStep(0x73f0c49be96dd0f75939b9336b570fa8a715204dfd740c66c651c7e70d7f0ece, 0x7b58fbbf65648cb5b4ccf675bd82817f8d1f910d07a326afb2ff35374d376d63, 10);
    SquareStep(0x7b58fbbf65648cb5b4ccf675bd82817f8d1f910d07a326afb2ff35374d376d63, 0x7defb95c312610fb99be0008e58a23024c49efdbd7d67626c41d94b09947394f, 9);
    SquareStep(0x7defb95c312610fb99be0008e58a23024c49efdbd7d67626c41d94b09947394f, 0x17733327bb53d2b07da0d2e4e6ee14f7a495ae2559764aeb933839d433bf8d8b, 8);
    SquareStep(0x17733327bb53d2b07da0d2e4e6ee14f7a495ae2559764aeb933839d433bf8d8b, 0x2e93a4674da68570311a61ddaaf3b8d23332f2efa133a75e40fb88d75aca2acf, 7);
    SquareStep(0x2e93a4674da68570311a61ddaaf3b8d23332f2efa133a75e40fb88d75aca2acf, 0x69904db297f35e7bb9d27df995e4b5440fb85f8dc89d7a8d0690c7027da3a8fd, 6);
    SquareStep(0x69904db297f35e7bb9d27df995e4b5440fb85f8dc89d7a8d0690c7027da3a8fd, 0x69394f9273afbc9123f877f909edd542431facf9bbe48418b9c5027fe8fe1a2e, 5);
    SquareStep(0x69394f9273afbc9123f877f909edd542431facf9bbe48418b9c5027fe8fe1a2e, 0x6a7841f386c37d25e761d62020898209a22986397ebd0deb2c18d5b7d73029bc, 4);
    SquareStep(0x6a7841f386c37d25e761d62020898209a22986397ebd0deb2c18d5b7d73029bc, 0x244937950fbc3525ed63db5e9694724042f5d982ce750e0263aefa0cd72dd346, 3);
    SquareStep(0x244937950fbc3525ed63db5e9694724042f5d982ce750e0263aefa0cd72dd346, 0x1760ee0cdf9e2dd48a729872b003c6887d326d5808d1daa2b3fe9966793bc865, 2);
    SquareStep(0x1760ee0cdf9e2dd48a729872b003c6887d326d5808d1daa2b3fe9966793bc865, 0x5c09e705c4a3c0e85b39d7c414a1de72f677208f902f94c0bc4047b1eb4b9114, 1);
  }

  lemma Squarings100At0()
    ensures Squared(0x9b4c0ceee9ab4c909e0e6057008be22907cdd32dbe07813d507c7a86afde3a4, 25) == 0x395f7aec63b01b7b365763705688aa685e50d892e21d16196d57d97aeff573a1
  {
    hide Squared, FMul, Red;
    SquareStep(0x9b4c0ceee9ab4c909e0e6057008be22907cdd32dbe07813d507c7a86afde3a4, 0x64123469c2532c705d8483bf561a9605fad05e6472d71e4d754e6074af843086, 25);
    SquareStep(0x64123469c2532c705d8483bf561a9605fad05e6472d71e4d754e6074af843086, 0x2210dbe2f780d4321c6b03c7390fdb98201d9fbb64732418182e95e12ec15c45, 24);
    SquareStep(0x2210dbe2f780d4321c6b03c7390fdb98201d9fbb64732418182e95e12ec15c45, 0x3e788962485dc92be8e06d64dbd7bf2eb969552e2b10fe77e7baad1cc55eccc5, 23);
    SquareStep(0x3e788962485dc92be8e06d64dbd7bf2eb969552e2b10fe77e7baad1cc55eccc5, 0x587fda8f3f00ec14d6d7deb648cb6919c4c6e331f142147c48b0868ad3c186dd, 22);
    SquareStep(0x587fda8f3f00ec14d6d7deb648cb6919c4c6e331f142147c48b0868ad3c186dd, 0xac7245517de8238c4b49505427332c2de511917102631082a0b3ccd1ad5459b, 21);
    SquareStep(0xac7245517de8238c4b49505427332c2de511917102631082a0b3ccd1ad5459b, 0x29e5871196a0b42616aeaef510323a46b25cdaf36136ef26c74149b8d349e65c, 20);
    SquareStep(0x29e5871196a0b42616aeaef510323a46b25cdaf36136ef26c74149b8d349e65c, 0x644d21dea0a78e74554bda5bdd7599bcbd603b39c59942f4810ed5cfb3099a17, 19);
    SquareStep(0x644d21dea0a78e74554bda5bdd7599bcbd603b39c59942f4810ed5cfb3099a17, 0x31204529a00721aeb1f4f56f716a0e2ac26d3e92f745f7ababed1879aaf728d9, 18);
    SquareStep(0x31204529a00721aeb1f4f56f716a0e2ac26d3e92f745f7ababed1879aaf728d9, 0x30b8e54d49c6ca894a20a344ca541320f0c56e8b5ff349ea6bbefaaa1f951434, 17);
    SquareStep(0x30b8e54d49c6ca894a20a344ca541320f0c56e8b5ff349ea6bbefaaa1f951434, 0x47798ec419158785f619c24742d2e9bbac5e75e0aa5ae1bacab91ca50bcec3cf, 16);
    SquareStep(0x47798ec419158785f619c24742d2e9bbac5e75e0aa5ae1bacab91ca50bcec3cf, 0x6d74aacff3959c0b146f4cd48a282ffdd0da883f75e1da43e66af90ffd534940, 15);
    SquareStep(0x6d74aacff3959c0b146f4cd48a282ffdd0da883f75e1da43e66af90ffd534940, 0x471a6f0ea49c731e8c2405c3bafd7ca37dd091dcdc89aad11ad5233e7ba959d, 14);
    SquareStep(0x471a6f0ea49c731e8c2405c3bafd7ca37dd091dcdc89aad11ad5233e7ba959d, 0x7895a1f0424cc294ac3c876c5ce51ccd84ec402d408fe9a37dc2dc7e598f0787, 13);
    SquareStep(0x7895a1f0424cc294ac3c876c5ce51ccd84ec402d408fe9a37dc2dc7e598f0787, 0xa1f66bc4c564e16b3d20a494498f5bcaf1b1fca467a34f9f4b0568034de10a7, 12);
    SquareStep(0xa1f66bc4c564e16b3d20a494498f5bcaf1b1fca467a34f9f4b0568034de10a7, 0x7bd60b834b0b863554797720f42ccdb9f1a5f0cf3ddff764b4b285cb7f262c5d, 11);
    SquareStep(0x7bd60b834b0b863554797720f42ccdb9f1a5f0cf3ddff764b4b285cb7f262c5d, 0x2b4122d3796ed51c0d9032fcbb7b112c2a682f30f4f44409b5c1a503dd27fbec, 10);
    SquareStep(0x2b4122d3796ed51c0d9032fcbb7b112c2a682f30f4f44409b5c1a503dd27fbec, 0x729982d900fe1e2a1b6e98bbca4fba50fc84c5229bed8d4a710b794d1df3902a, 9);
    SquareStep(0x729982d900fe1e2a1b6e98bbca4fba50fc84c5229bed8d4a710b794d1df3902a, 0x2d0187720c9dc8fca50cc3b36f1e418e2414e7b0dd514d5c07d555141c4a72a, 8);
    SquareStep(0x2d0187720c9dc8fca50cc3b36f1e418e2414e7b0dd514d5c07d555141c4a72a, 0x1a9cf3181575317b2dc8fabbb48450c94a8997d6d2743405c5eb279bcb9234e7, 7);
    SquareStep(0x1a9cf3181575317b2dc8fabbb48450c94a8997d6d2743405c5eb279bcb9234e7, 0xd922216539aa7b519270f53dd9a7ad3fc947a07f324cf5acfd6fbaba8b7cb49, 6);
    SquareStep(0xd922216539aa7b519270f53dd9a7ad3fc947a07f324cf5acfd6fbaba8b7cb49, 0x7c8a972fe66c5637c91072e5214d6ee098e3f7c4e0c274c3781064d1947108e4, 5);
    SquareStep(0x7c8a972fe66c5637c91072e5214d6ee098e3f7c4e0c274c3781064d1947108e4, 0x8eb1886c226c74beafc04cc03f37ea05a871ac8dd8cef1774808d23edb03d90, 4);
    SquareStep(0x8eb1886c226c74beafc04cc03f37ea05a871ac8dd8cef1774808d23edb03d90, 0x58ea9ff3276458f60963d9668943c3500c3ba0ea02747b923ef2ed80ddcb1806, 3);
    SquareStep(0x58ea9ff3276458f60963d9668943c3500c3ba0ea02747b923ef2ed80ddcb1806, 0x3e519991af903aa79654079ffaf664d78374f3a270bc8f7a37ee27ae984d89b2, 2);
    SquareStep(0x3e519991af903aa79654079ffaf664d78374f3a270bc8f7a37ee27ae984d89b2, 0x395f7aec63b01b7b365763705688aa685e50d892e21d16196d57d97aeff573a1, 1);
  }

  lemma Squarings100At25()
    ensures Squared(0x395f7aec63b01b7b365763705688aa685e50d892e21d16196d57d97aeff573a1, 25) == 0x6f91aa306c01ecfd050d0b220d0ad83ab7eee907cf6bcf638b377b074f25194
  {
    hide Squared, FMul, Red;
    SquareStep(0x395f7aec63b01b7b365763705688aa685e50d892e21d16196d57d97aeff573a1, 0xbcb0619c4c69c24579525c188eaca03027b2fdb022d1e284013aef7d1bf1b6c, 25);
    SquareStep(0xbcb0619c4c69c24579525c188eaca03027b2fdb022d1e284013aef7d1bf1b6c, 0x581b88838a5bc208ce3b9ce29b75f286489c094247be85964216fa6bafae8fe2, 24);
    SquareStep(0x581b88838a5bc208ce3b9ce29b75f286489c094247be85964216fa6bafae8fe2, 0x2e30f53069f083b4bb158f461a46502260d0881997e9946d29a38f0a752ae65b, 23);
    SquareStep(0x2e30f53069f083b4bb158f461a46502260d0881997e9946d29a38f0a752ae65b, 0x482de7e3c20ca3d75f4d01c3c973753ee78894c1832e43458ea390aaf07031f8, 22);
    SquareStep(0x482de7e3c20ca3d75f4d01c3c973753ee78894c1832e43458ea390aaf07031f8, 0x1f2d57d64a8196aa04aa039869bf1485528dd700a06d448a7d5e349eeaffca3a, 21);
    SquareStep(0x1f2d57d64a8196aa04aa039869bf1485528dd700a06d448a7d5e349eeaffca3a, 0x11ea9f27cc2c2ec4aaa0139e6d6ef01367c9c94f4f35d05d54cd40fcafb305ee, 20);
    SquareStep(0x11ea9f27cc2c2ec4aaa0139e6d6ef01367c9c94f4f35d05d54cd40fcafb305ee, 0x5aeda5975512b9d55c75fd7dfc58aebb14f0d4142515eafb1c53d48fcc4bca2f, 19);
    SquareStep(0x5aeda5975512b9d55c75fd7dfc58aebb14f0d4142515eafb1c53d48fcc4bca2f, 0x55646a51bb431ccf6f6ce811a83bde22a1f1c007c21ed1e30003f8d1027b52e2, 18);
    SquareStep(0x55646a51bb431ccf6f6ce811a83bde22a1f1c007c21ed1e30003f8d1027b52e2, 0x39a21262dd4fb5b9f4590607c0684b8840cce5a701f03e632a2b3fbe2ba5dbfc, 17);
    SquareStep(0x39a21262dd4fb5b9f4590607c0684b8840cce5a701f03e632a2b3fbe2ba5dbfc, 0x71f2b709a9d8aad8c498e328a273e2b9a0ae3a3ff4383584aa7a7a6d9e0232a7, 16);
    SquareStep(0x71f2b709a9d8aad8c498e328a273e2b9a0ae3a3ff4383584aa7a7a6d9e0232a7, 0x5fa66e00599bf300823dcc94ea6fd726462e3868c76837fcb3af6103ef6614fa, 15);
    SquareStep(0x5fa66e00599bf300823dcc94ea6fd726462e3868c76837fcb3af6103ef6614fa, 0x7375d140d15cbda05a029fdf89df14893534079ea973f0444ade2dd7f9bc8049, 14);
    SquareStep(0x7375d140d15cbda05a029fdf89df14893534079ea973f0444ade2dd7f9bc8049, 0x3190e38372e22f2ce9805db81f932aa8357fac3d30a49144a1b1a890b231a958, 13);
    SquareStep(0x3190e38372e22f2ce9805db81f932aa8357fac3d30a49144a1b1a890b231a958, 0x585ee789b2092193259dc53e2a3237fc415099b69eb5ba4dc9cf075f42f61175, 12);
    SquareStep(0x585ee789b2092193259dc53e2a3237fc415099b69eb5ba4dc9cf075f42f61175, 0x7aca70f8fa0ea770c7fb818535dc8e7a40c80fbbcbc04c9114d89d6f8c45fd15, 11);
    SquareStep(0x7aca70f8fa0ea770c7fb818535dc8e7a40c80fbbcbc04c9114d89d6f8c45fd15, 0x60ef331266d906e2256dbbe47c42fedf502fc0c9dbfe653edbf5fcb40a9fadf4, 10);
    SquareStep(0x60ef331266d906e2256dbbe47c42fedf502fc0c9dbfe653edbf5fcb40a9fadf4, 0x1238b5595fe469236504132c0ffc0554f6a1da7b59dce76b5237b2c7b18ad26b, 9);
    SquareStep(0x1238b5595fe469236504132c0ffc0554f6a1da7b59dce76b5237b2c7b18ad26b, 0x2bc6f3235071bd88be7d45e7d4985db7fa67ce07953fbd448efd0976afd1925f, 8);
    SquareStep(0x2bc6f3235071bd88be7d45e7d4985db7fa67ce07953fbd448efd0976afd1925f, 0x5d961631ff609f043371a50dbc9349bd58c7e87a905e59f3ed3e6b8ed7903b9d, 7);
    SquareStep(0x5d961631ff609f043371a50dbc9349bd58c7e87a905e59f3ed3e6b8ed7903b9d, 0x1e67f40cf3cd6661b53d19217095b74a67776cdb392b24425289392cafdf4880, 6);
    SquareStep(0x1e67f40cf3cd6661b53d19217095b74a67776cdb392b24425289392cafdf4880, 0x48990a1319482712ebe8d0b78c550643a15ed530c80fda74a53ec8010bc4700f, 5);
    SquareStep(0x48990a1319482712ebe8d0b78c550643a15ed530c80fda74a53ec8010bc4700f, 0x3bd92a2ecb2cc217ad22165a6fc5ad50cdca4772c5317cc9d4cbfe3ceff62fa4, 4);
    SquareStep(0x3bd92a2ecb2cc217ad22165a6fc5ad50cdca4772c5317cc9d4cbfe3ceff62fa4, 0x24d574314b7cefbb28fb8680e4b1e1797e39760c23d01a4eae9f748f15d1b634, 3);
    SquareStep(0x24d574314b7cefbb28fb8680e4b1e1797e39760c23d01a4eae9f748f15d1b634, 0x6474bb5b35aa5266247789d8c30edc3438703320874450a3f58a0682c9248c8b, 2);
    SquareStep(0x6474bb5b35aa5266247789d8c30edc3438703320874450a3f58a0682c9248c8b, 0x6f91aa306c01ecfd050d0b220d0ad83ab7eee907cf6bcf638b377b074f25194, 1);
  }

  lemma Squarings100At50()
    ensures Squared(0x6f91aa306c01ecfd050d0b220d0ad83ab7eee907cf6bcf638b377b074f25194, 25) == 0x2dd2924d0917eb923ccdf877c5d70688889f83bf80c448c9c3dca649ae576d78
  {
    hide Squared, FMul, Red;
    SquareStep(0x6f91aa306c01ecfd050d0b220d0ad83ab7eee907cf6bcf638b377b074f25194, 0x1e324ec3d3a2723113f93227d1b5a5e0fa1a9e8ad6d9eb80d2203a013bd13dfb, 25);
    SquareStep(0x1e324ec3d3a2723113f93227d1b5a5e0fa1a9e8ad6d9eb80d2203a013bd13dfb, 0x76b681f5f382d0ad447ddda47829d12d674a2e1299a6732ebc6fd0e507361139, 24);
    SquareStep(0x76b681f5f382d0ad447ddda47829d12d674a2e1299a6732ebc6fd0e507361139, 0x3187f7a953e84170c87db0929cf2c6e158349a6d2f30b14628f099caf4139c0f, 23);
    SquareStep(0x3187f7a953e84170c87db0929cf2c6e158349a6d2f30b14628f099caf4139c0f, 0x4d380e8c98e32a43a0bff34b954469132c1d4cfa8660851f1029b26debd7c175, 22);
    SquareStep(0x4d380e8c98e32a43a0bff34b954469132c1d4cfa8660851f1029b26debd7c175, 0x373f89e52a9a9de59a44f5be9c0148c59865c0a1808a8b7a80f5e2ff3dd52db8, 21);
    SquareStep(0x373f89e52a9a9de59a44f5be9c0148c59865c0a1808a8b7a80f5e2ff3dd52db8, 0x3e241588af77ac438f20ff3165ae667d845235872631a262aa01463bc34c21bc, 20);
    SquareStep(0x3e241588af77ac438f20ff3165ae667d845235872631a262aa01463bc34c21bc, 0x3662eada4c255361362f64ece874fa15ad74641f0638e8587bade93213c4f460, 19);
    SquareStep(0x3662eada4c255361362f64ece874fa15ad74641f0638e8587bade93213c4f460, 0x76a39bdf3932228060d8641d884d38da6e10d43d4a7028a7520330f86c120236, 18);
    SquareStep(0x76a39bdf3932228060d8641d884d38da6e10d43d4a7028a7520330f86c120236, 0x574ecc2e6322b782af13a552349bf5533936852e2930892271928a987da70101, 17);
    SquareStep(0x574ecc2e6322b782af13a552349bf5533936852e2930892271928a987da70101, 0x1253292b262d89ee72efb2b5cb8e7cc04e6039c7f73bd6b0f9a80b356779d602, 16);
    SquareStep(0x1253292b262d89ee72efb2b5cb8e7cc04e6039c7f73bd6b0f9a80b356779d602, 0x4ec75686b9e1c0fac675cd4b6fa7bb8aa1237b1a2fbd11d62b602757dfc237a8, 15);
    SquareStep(0x4ec75686b9e1c0fac675cd4b6fa7bb8aa1237b1a2fbd11d62b602757dfc237a8, 0x1197e72b8480005ab6c7b3ab2c5375b62c64d9c1a83cfd7edc48737c3f297ac, 14);
    SquareStep(0x1197e72b8480005ab6c7b3ab2c5375b62c64d9c1a83cfd7edc48737c3f297ac, 0x6ab431f484dd2720ced6de81f66eab8f1b4bca1b8074999c095ce1182e4c2682, 13);
    SquareStep(0x6ab431f484dd2720ced6de81f66eab8f1b4bca1b8074999c095ce1182e4c2682, 0x740b46d9be78d9090b6bc057e063dce982340b732e5958ade44342acca67b473, 12);
    SquareStep(0x740b46d9be78d9090b6bc057e063dce982340b732e5958ade44342acca67b473, 0x3308287dd98dade71c8a3a2ee901df1acb26f0eb68cd8716725de0076b7b0367, 11);
    SquareStep(0x3308287dd98dade71c8a3a2ee901df1acb26f0eb68cd8716725de0076b7b0367, 0x488baf7cf943171c98a50bc66888a3b310c0a1703bd3b403d2f2f0ff9caca4d9, 10);
    SquareStep(0x488baf7cf943171c98a50bc66888a3b310c0a1703bd3b403d2f2f0ff9caca4d9, 0x6ace15921dcf53e72e30a55cb1f91955ecc79b5455a5efbc7df7148a29b83f2c, 9);
    SquareStep(0x6ace15921dcf53e72e30a55cb1f91955ecc79b5455a5efbc7df7148a29b83f2c, 0xf5aa0dd7dbb0b4cb714ba21cc72e66a9fb59125fd6cda3c04d31878ee5d1fdb, 8);
    SquareStep(0xf5aa0dd7dbb0b4cb714ba21cc72e66a9fb59125fd6cda3c04d31878ee5d1fdb, 0x2679ec3b56f4a8fecb73e0b74bfaf8a1122f573771f8921db2a7825e0ac601c7, 7);
    SquareStep(0x2679ec3b56f4a8fecb73e0b74bfaf8a1122f573771f8921db2a7825e0ac601c7, 0x7a6a97b38a8689650d09fea85431fafbfa5ab1a2115e2fd189141bf403d7d0a1, 6);
    SquareStep(0x7a6a97b38a8689650d09fea85431fafbfa5ab1a2115e2fd189141bf403d7d0a1, 0x214dad28462190e3673d2b49123ad6a3772be835c263b82dad2769e43402d88e, 5);
    SquareStep(0x214dad28462190e3673d2b49123ad6a3772be835c263b82dad2769e43402d88e, 0x3117b8ef2dadb5392ec9f9f769603bfda00491430263f806857fecab69261076, 4);
    SquareStep(0x3117b8ef2dadb5392ec9f9f769603bfda00491430263f806857fecab69261076, 0x27cb7830c6088c8dd72ae8f5fd0bd63066896bce759741bf2eed56116d1cffc9, 3);
    SquareStep(0x27cb7830c6088c8dd72ae8f5fd0bd63066896bce759741bf2eed56116d1cffc9, 0x2d3696585df7080fe945275b3ce8310ae90d81c335ca3a9632ea00c40597f2f7, 2);
    SquareStep(0x2d3696585df7080fe945275b3ce8310ae90d81c335ca3a9632ea00c40597f2f7, 0x2dd2924d0917eb923ccdf877c5d70688889f83bf80c448c9c3dca649ae576d78, 1);
  }

  lemma Squarings100At75()
    ensures Squared(0x2dd2924d0917eb923ccdf877c5d70688889f83bf80c448c9c3dca649ae576d78, 25) == 0x57140394510c2b4081a51b81500bef05bc9da0344f6a0d4c093abedad2670ab4
  {
    hide Squared, FMul, Red;
    SquareStep(0x2dd2924d0917eb923ccdf877c5d70688889f83bf80c448c9c3dca649ae576d78, 0x495ae0f9a36f163405b1ae078ba3c8b467a13ff6ef68d1e85980d55a9e53c042, 25);
    SquareStep(0x495ae0f9a36f163405b1ae078ba3c8b467a13ff6ef68d1e85980d55a9e53c042, 0x4cafc61ae97edd9a8a7b9e651c7f0800656e6c2311ebc3c58d5ef07fa42778b9, 24);
    SquareStep(0x4cafc61ae97edd9a8a7b9e651c7f0800656e6c2311ebc3c58d5ef07fa42778b9, 0x182612d7d0824854336020a5a8a0ddd58839eed8e957882ea2b86bc0a38d0a19, 23);
    SquareStep(0x182612d7d0824854336020a5a8a0ddd58839eed8e957882ea2b86bc0a38d0a19, 0x36bbd268fef0ea2dea57f4315fdca9bfb48209807847084fd17c415f708c205d, 22);
    SquareStep(0x36bbd268fef0ea2dea57f4315fdca9bfb48209807847084fd17c415f708c205d, 0x172c236df6d503cf730374910ab97162a8afbb5f9f290e39707f8c6e5cc17b3e, 21);
    SquareStep(0x172c236df6d503cf730374910ab97162a8afbb5f9f290e39707f8c6e5cc17b3e, 0x5e85f046fd56b071f08f788e4c706515a2a3f64df5d255aebcd8448f68144d47, 20);
    SquareStep(0x5e85f046fd56b071f08f788e4c706515a2a3f64df5d255aebcd8448f68144d47, 0x38fc7488c86e763bfde8402974ea80ad3fbff320e6587522f4177db69378f9d0, 19);
    SquareStep(0x38fc7488c86e763bfde8402974ea80ad3fbff320e6587522f4177db69378f9d0, 0x5e909dd071d4e7a525ac43ee472b1231fca66ba82888780821fc397ce9e0be16, 18);
    SquareStep(0x5e909dd071d4e7a525ac43ee472b1231fca66ba82888780821fc397ce9e0be16, 0x5d3f426434164145cd0f8960d618783f0d305f912601599f33c1c6c8e5862e72, 17);
    SquareStep(0x5d3f426434164145cd0f8960d618783f0d305f912601599f33c1c6c8e5862e72, 0x2c0d8ac1ec4520f0d8ef196609c24e6ff4d03440d6a07291aafd04c37c0809f8, 16);
    SquareStep(0x2c0d8ac1ec4520f0d8ef196609c24e6ff4d03440d6a07291aafd04c37c0809f8, 0x5e6bd311c5b158d53806a56085c60214e5000adfe7bb3bef824b58bce22dc743, 15);
    SquareStep(0x5e6bd311c5b158d53806a56085c60214e5000adfe7bb3bef824b58bce22dc743, 0x47b16a81fbfadc6e83d55a35f5e759fa4d9d1c3522cbcc5467b332d4ba6ff997, 14);
    SquareStep(0x47b16a81fbfadc6e83d55a35f5e759fa4d9d1c3522cbcc5467b332d4ba6ff997, 0x2ce02d2c1869059ed7c0006dde5f426b55666f266041ca8a0582ddc0c21152ce, 13);
    SquareStep(0x2ce02d2c1869059ed7c0006dde5f426b55666f266041ca8a0582ddc0c21152ce, 0x226004cb586edfb42acf6957a840d84189fb4227bef4c0891a66373ef839b11d, 12);
    SquareStep(0x226004cb586edfb42acf6957a840d84189fb4227bef4c0891a66373ef839b11d, 0x2fb88a7439e17fc82c7604e2268a23befa599941932bc73f4d9c1ebda3de65f9, 11);
    SquareStep(0x2fb88a7439e17fc82c7604e2268a23befa599941932bc73f4d9c1ebda3de65f9, 0x30e601282f9e1b5a8e192c11a4803f5a2e3ff25e25068d2d606516b59c5682c8, 10);
    SquareStep(0x30e601282f9e1b5a8e192c11a4803f5a2e3ff25e25068d2d606516b59c5682c8, 0x55323a25c03597f61c106e5053f6c68c6022d1d9616b03800052236ae78f1b23, 9);
    SquareStep(0x55323a25c03597f61c106e5053f6c68c6022d1d9616b03800052236ae78f1b23, 0x11b4114b275a904126687740ff185a3e80fc43557a70bbaf24103776c33206c3, 8);
    SquareStep(0x11b4114b275a904126687740ff185a3e80fc43557a70bbaf24103776c33206c3, 0x60e5fad960f5c30925ee28914c6d3fa344b1f6fcb1d34d5c73aa3f49b1d73ed2, 7);
    SquareStep(0x60e5fad960f5c30925ee28914c6d3fa344b1f6fcb1d34d5c73aa3f49b1d73ed2, 0x2e1feb3de6cd48d3c5ea18498b3f68ba9256e2f43a2de0da5960bdf4ab5136fd, 6);
    SquareStep(0x2e1feb3de6cd48d3c5ea18498b3f68ba9256e2f43a2de0da5960bdf4ab5136fd, 0x397d9ca989346d433a34a5718d3f6799b3550e30761731e5b42ea0cc0a20adfb, 5);
    SquareStep(0x397d9ca989346d433a34a5718d3f6799b3550e30761731e5b42ea0cc0a20adfb, 0x306387b9c0ec78cab596b8e67b29ecfedab8f7068e1dcc4d51eb4aa2c160f522, 4);
    SquareStep(0x306387b9c0ec78cab596b8e67b29ecfedab8f7068e1dcc4d51eb4aa2c160f522, 0x39ad7d84b1e80e3422df6d8c2d3769095b6e2ba5c512f57089e4d9e5b31387ca, 3);
    SquareStep(0x39ad7d84b1e80e3422df6d8c2d3769095b6e2ba5c512f57089e4d9e5b31387ca, 0x6d7cf97b9e480070b177e5fbfc7a8c8292827f8d901dfd696d8cbea7ee6bda33, 2);
    SquareStep(0x6d7cf97b9e480070b177e5fbfc7a8c8292827f8d901dfd696d8cbea7ee6bda33, 0x57140394510c2b4081a51b81500bef05bc9da0344f6a0d4c093abedad2670ab4, 1);
  }

  lemma Squarings200At0()
    ensures Squared(0x6e4f6fec64a420c514ab1ff5a228e97651357f04320aa03cb580f53fee9216fc, 25) == 0x463db90c40889ea54944a6dfbe25e6685bffa04f4b3b1cd87eaafe32fc7e18e4
  {
    hide Squared, FMul, Red;
    SquareStep(0x6e4f6fec64a420c514ab1ff5a228e97651357f04320aa03cb580f53fee9216fc, 0x5eaeacdf19240a28add8a9855f60d24e00bdce08f398e668137b88ca53b568ee, 25);
    SquareStep(0x5eaeacdf19240a28add8a9855f60d24e00bdce08f398e668137b88ca53b568ee, 0x7011ffe23c15ddd3f74cb7d1c328b99fe0a65d7eb72b912f6b32185e9870ba82, 24);
    SquareStep(0x7011ffe23c15ddd3f74cb7d1c328b99fe0a65d7eb72b912f6b32185e9870ba82, 0x2f1deeee0c076eaaec38a10913a8cc420ee264eb50043facba74e16f1bee3d51, 23);
    SquareStep(0x2f1deeee0c076eaaec38a10913a8cc420ee264eb50043facba74e16f1bee3d51, 0x556ea05d58ae5faa104e892d2f196577fac92bee6301c31a9ca73be0fba4adbe, 22);
    SquareStep(0x556ea05d58ae5faa104e892d2f196577fac92bee6301c31a9ca73be0fba4adbe, 0x46a1e463470031caa76abe298cd049b0a3293d0d2266aae414c28043d6d821d, 21);
    SquareStep(0x46a1e463470031caa76abe298cd049b0a3293d0d2266aae414c28043d6d821d, 0x587c7dda12f066c41df1adf5bdff28492a75f7a1d95d1414c11409b102cc4f0, 20);
    SquareStep(0x587c7dda12f066c41df1adf5bdff28492a75f7a1d95d1414c11409b102cc4f0, 0x3cd1417f629973477ee2eb9e86b593ecfb9e2c8b14ee14b3d7580ca32a6ca8aa, 19);
    SquareStep(0x3cd1417f629973477ee2eb9e86b593ecfb9e2c8b14ee14b3d7580ca32a6ca8aa, 0x3bdccde612a42d361efca103ca4ac25a777fba4c782ea6de2074f07cc207b057, 18);
    SquareStep(0x3bdccde612a42d361efca103ca4ac25a777fba4c782ea6de2074f07cc207b057, 0x7c6d970b2d9a680ec44f3022b4f9b3385a5851a7e75ba3e135a02a6c1131b520, 17);
    SquareStep(0x7c6d970b2d9a680ec44f3022b4f9b3385a5851a7e75ba3e135a02a6c1131b520, 0x4cff2e64f87aa42955b1677459ee94e771336f555a08ad2e83d3c5c2d6d9175e, 16);
    SquareStep(0x4cff2e64f87aa42955b1677459ee94e771336f555a08ad2e83d3c5c2d6d9175e, 0x7a767da975c90ea414b875fdd6f958b2df65223860271236c138974e2c1aecee, 15);
    SquareStep(0x7a767da975c90ea414b875fdd6f958b2df65223860271236c138974e2c1aecee, 0x10e7f7d314f5912ee8d110aa69fd7f14d081fbfe8f87fddcf8859ffc9c7d4f49, 14);
    SquareStep(0x10e7f7d314f5912ee8d110aa69fd7f14d081fbfe8f87fddcf8859ffc9c7d4f49, 0x499ad484cb7c4d02340c68ebf3f960fbf4528f2dd18d779148513c69cd439031, 13);
    SquareStep(0x499ad484cb7c4d02340c68ebf3f960fbf4528f2dd18d779148513c69cd439031, 0x4e8df847a9e0b3b2fc6ac0d1a5d4d3bc0835b65cff6c6b8779cd4f6ee93255a8, 12);
    SquareStep(0x4e8df847a9e0b3b2fc6ac0d1a5d4d3bc0835b65cff6c6b8779cd4f6ee93255a8, 0x18dd8492db08523b698f6926e6d6c171db8ad885a4009d32895322daa247fbe2, 11);
    SquareStep(0x18dd8492db08523b698f6926e6d6c171db8ad885a4009d32895322daa247fbe2, 0x117f1a0d548dd126a28e036821ca6f680fe4c37006375546a87dd809573df772, 10);
    SquareStep(0x117f1a0d548dd126a28e036821ca6f680fe4c37006375546a87dd809573df772, 0x5e130859617f8dca2985f3d9e4d2ab32cfbf230668b6e761469a4c51011b46a7, 9);
    SquareStep(0x5e130859617f8dca2985f3d9e4d2ab32cfbf230668b6e761469a4c51011b46a7, 0x18ba8e39827cbaf9581217e205c9dfcb25ea6b416b5edc1edde0a93195368bfa, 8);
    SquareStep(0x18ba8e39827cbaf9581217e205c9dfcb25ea6b416b5edc1edde0a93195368bfa, 0x4532095790df967139580fc42fcc92418c3fd8a5aecb5fcbd719a44cd3818bda, 7);
    SquareStep(0x4532095790df967139580fc42fcc92418c3fd8a5aecb5fcbd719a44cd3818bda, 0x7be81fb540716936b9827f781467ad3e1f5794dcfe7213cebe5983f2173428ed, 6);
    SquareStep(0x7be81fb540716936b9827f781467ad3e1f5794dcfe7213cebe5983f2173428ed, 0x123b92d515b4782a66cdde57d1e8e1ca1b3b7535faf8554adc408d1dde064501, 5);
    SquareStep(0x123b92d515b4782a66cdde57d1e8e1ca1b3b7535faf8554adc408d1dde064501, 0x35dbe2876bde87504329250f031a6ddb2a32245f90532d775ff1f9751c9ba94, 4);
    SquareStep(0x35dbe2876bde87504329250f031a6ddb2a32245f90532d775ff1f9751c9ba94, 0x680c510d675203658309ffc5b75d0fe53d61c2db92f416f4b2a66fdde434e70c, 3);
    SquareStep(0x680c510d675203658309ffc5b75d0fe53d61c2db92f416f4b2a66fdde434e70c, 0x3ef53196c7465e92e080aa756698341996009f6394080dc51c75c14411305ac9, 2);
    SquareStep(0x3ef53196c7465e92e080aa756698341996009f6394080dc51c75c14411305ac9, 0x463db90c40889ea54944a6dfbe25e6685bffa04f4b3b1cd87eaafe32fc7e18e4, 1);
  }

  lemma Squarings200At25()
    ensures Squared(0x463db90c40889ea54944a6dfbe25e6685bffa04f4b3b1cd87eaafe32fc7e18e4, 25) == 0x22aacc411784efc0fedd8e7983192997371a3e1137a0dc2784b8ab1925453f9f
  {
    hide Squared, FMul, Red;
    SquareStep(0x463db90c40889ea54944a6dfbe25e6685bffa04f4b3b1cd87eaafe32fc7e18e4, 0x87c7a37e059580c5a28806899232912be2d3f6113499a5b81b41a2bd6577180, 25);
    SquareStep(0x87c7a37e059580c5a28806899232912be2d3f6113499a5b81b41a2bd6577180, 0x5664956b75798c836a3c36f32e16b4d9f967f42cf3579ab678b30d1a8982b152, 24);
    SquareStep(0x5664956b75798c836a3c36f32e16b4d9f967f42cf3579ab678b30d1a8982b152, 0x2ed0debf31c2c0a9681180428809f5bd286a5acda2ee1636c27a2a772d168a63, 23);
    SquareStep(0x2ed0debf31c2c0a9681180428809f5bd286a5acda2ee1636c27a2a772d168a63, 0x49cc7d69e5f8a8113a2383e20b4cc584c2c00747cf788b280c48ff1e84948cd8, 22);
    SquareStep(0x49cc7d69e5f8a8113a2383e20b4cc584c2c00747cf788b280c48ff1e84948cd8, 0x4e9146e4b143e1b717df776e8202cdf892bf25060957b0cb6f28c7886817f60c, 21);
    SquareStep(0x4e9146e4b143e1b717df776e8202cdf892bf25060957b0cb6f28c7886817f60c, 0x6af50c35476675da22b555226aeafdccd0929882d783dfe0f4f404444e847c42, 20);
    SquareStep(0x6af50c35476675da22b555226aeafdccd0929882d783dfe0f4f404444e847c42, 0x39f708e90836c126050b1bc4064e3d79719812c77335c993a4e58f037fd771ff, 19);
    SquareStep(0x39f708e90836c126050b1bc4064e3d79719812c77335c993a4e58f037fd771ff, 0x7d6e561d9f865ee3fb55855aefb4d3fa157c47bff8325e9ef5afc3f31dd6f7ae, 18);
    SquareStep(0x7d6e561d9f865ee3fb55855aefb4d3fa157c47bff8325e9ef5afc3f31dd6f7ae, 0x1475b5b301e8c3eaf165a8af070347beb0f10bc5a0bd5b5e98aa89fda3952867, 17);
    SquareStep(0x1475b5b301e8c3eaf165a8af070347beb0f10bc5a0bd5b5e98aa89fda3952867, 0x57ef964e5ef4a201b64876fd5c8cc3427434160907bb1b8eb32d770af965e8a9, 16);
    SquareStep(0x57ef964e5ef4a201b64876fd5c8cc3427434160907bb1b8eb32d770af965e8a9, 0x5619061a06602584fa8c63de6bede9245f7a7181a9be55decbbb379d50bb0a13, 15);
    SquareStep(0x5619061a06602584fa8c63de6bede9245f7a7181a9be55decbbb379d50bb0a13, 0x1c3186bfd186a3d932202f5ab5494ea3ea8fbe6092a41ce86a1543e88d26c4d8, 14);
    SquareStep(0x1c3186bfd186a3d932202f5ab5494ea3ea8fbe6092a41ce86a1543e88d26c4d8, 0x2703de4581a9f29d152b2510d7e198f3e8ee8e493947f0bfcb66eddadbb348ff, 13);
    SquareStep(0x2703de4581a9f29d152b2510d7e198f3e8ee8e493947f0bfcb66eddadbb348ff, 0x16994bb344c22db5c8a3affa0897d6d9a8be52cf94c469a166c8a0fa18f82e6b, 12);
    SquareStep(0x16994bb344c22db5c8a3affa0897d6d9a8be52cf94c469a166c8a0fa18f82e6b, 0x65449b69f3dfac539a3db2a3b5b478676093270091f0157e2a4ff6c98c4e76a3, 11);
    SquareStep(0x65449b69f3dfac539a3db2a3b5b478676093270091f0157e2a4ff6c98c4e76a3, 0x5f13592f7564a560d549ce32f043e2ac96eedd8a30977dd7007a80a7a2ca434b, 10);
    SquareStep(0x5f13592f7564a560d549ce32f043e2ac96eedd8a30977dd7007a80a7a2ca434b, 0x2122a9742876fbc3e4253a5486ac0b1954f7ec991d77012d2cb7e0771e154fd6, 9);
    SquareStep(0x2122a9742876fbc3e4253a5486ac0b1954f7ec991d77012d2cb7e0771e154fd6, 0x10effd4aa23f51c28b93198729727b742944bfec0f6ecc4751f01a16d066eb0b, 8);
    SquareStep(0x10effd4aa23f51c28b93198729727b742944bfec0f6ecc4751f01a16d066eb0b, 0x28cf176f8d1b3fa12f0bc20d4ade3fd80bd973070192d38a7c6727b936062bcd, 7);
    SquareStep(0x28cf176f8d1b3fa12f0bc20d4ade3fd80bd973070192d38a7c6727b936062bcd, 0x441bbd665306ab5de02200dd73e63f92e1a114452acff42ba38fc4f7fbd2ce8a, 6);
    SquareStep(0x441bbd665306ab5de02200dd73e63f92e1a114452acff42ba38fc4f7fbd2ce8a, 0x1353c8524c03333cb2d4de715c25692490cf55aacb0f6c9e45b9ccc9647c1e1d, 5);
    SquareStep(0x1353c8524c03333cb2d4de715c25692490cf55aacb0f6c9e45b9ccc9647c1e1d, 0x1acfb04dc12ed0171abb460003eb8cd5bc04709bed9899ba02a32ac11788a619, 4);
    SquareStep(0x1acfb04dc12ed0171abb460003eb8cd5bc04709bed9899ba02a32ac11788a619, 0x463b5240cbffb55d3ad4bed0f9054728a3dffdc5e2b770f9f9149bfe374c11da, 3);
    SquareStep(0x463b5240cbffb55d3ad4bed0f9054728a3dffdc5e2b770f9f9149bfe374c11da, 0x10ed4fde87da2bee9d2875c528fe2d3eae47c6ed7791a84e45418ccd89b2d233, 2);
    SquareStep(0x10ed4fde87da2bee9d2875c528fe2d3eae47c6ed7791a84e45418ccd89b2d233, 0x22aacc411784efc0fedd8e7983192997371a3e1137a0dc2784b8ab1925453f9f, 1);
  }

  lemma Squarings250At0()
    ensures Squared(0x2960860d89ba22bb28647502308c4850b1e4347d3ef1c0c055d61ea8ac6fb45a, 5) == 0x1108ee3b36b4b5e29b3b292da153577849342fb467464e1cdda914929eb27202
  {
    hide Squared, FMul, Red;
    SquareStep(0x2960860d89ba22bb28647502308c4850b1e4347d3ef1c0c055d61ea8ac6fb45a, 0x75d172146d8f8d53e3a0e19e154541e9969c2a0ddad04460668dafb3e8f2d009, 5);
    SquareStep(0x75d172146d8f8d53e3a0e19e154541e9969c2a0ddad04460668dafb3e8f2d009, 0xe6c75809812ace26c0d64be56ce33f61b7a627b4a48849d00e9660d380beb67, 4);
    SquareStep(0xe6c75809812ace26c0d64be56ce33f61b7a627b4a48849d00e9660d380beb67, 0x235609215c5b4d9b910813aa50c4a727ae878cd14b802cf301c17e118eecaf9, 3);
    SquareStep(0x235609215c5b4d9b910813aa50c4a727ae878cd14b802cf301c17e118eecaf9, 0x23a293e62fa8ca9769e9365715196e8cc29ec145381d625ecca57c8280b24164, 2);
    SquareStep(0x23a293e62fa8ca9769e9365715196e8cc29ec145381d625ecca57c8280b24164, 0x1108ee3b36b4b5e29b3b292da153577849342fb467464e1cdda914929eb27202, 1);
  }

  lemma FirstSquarings()
    ensures Squared(0x510, 2) == 0x290d7410000 && Squared(0x1d39d3e06400000, 1) == 0x3562710dff0318727100000000000
  {
    hide Squared, FMul, Red;
    SquareStep(0x510, 0x19a100, 2);
    SquareStep(0x19a100, 0x290d7410000, 1);
    SquareStep(0x1d39d3e06400000, 0x3562710dff0318727100000000000, 1);
  }

  lemma FirstPowers()
    ensures FPow(36, 2) == 0x510 && FPow(36, 8) == 0x290d7410000
    ensures FPow(0x1d39d3e06400000, 2) == 0x3562710dff0318727100000000000
  {
    hide FPow, Squared, FMul, Red;
    PowSquare(36);
    Product(36, 36, 0x510);
    FirstSquarings();
    assert Pow2(1) == 2 && Pow2(2) == 4;
    SquaredIsPow(0x510, 2);
    SquaredIsPow(0x1d39d3e06400000, 1);
    PowMul(36, 2, 4);
  }

  lemma Start()
    ensures FPow(36, 11) == 0x1d39d3e06400000 && FPow(36, Ones(5)) == 0x1343093195196b9fcca7c68ce4000000000000000
  {
    hide FPow, FMul, Red, Squared;
    FirstPowers();
    SmallChain(36);
    RedRange(36);
    assert Pow2(1) == 2;
    Product(0x290d7410000, 36, 0x5c5e45240000);
    Product(0x5c5e45240000, 0x510, 0x1d39d3e06400000);
    Product(0x3562710dff0318727100000000000, 0x5c5e45240000, 0x1343093195196b9fcca7c68ce4000000000000000);
  }

  lemma Chain10()
    requires FPow(36, Ones(5)) == 0x1343093195196b9fcca7c68ce4000000000000000
    ensures FPow(36, Ones(10)) == 0x30ce0e22a08213e19c1967ba8fade8ac3428f894b27ffd5c9fcd7aef72c89003
  {
    hide FPow, Squared, FMul, Red;
    Squarings5At0();
    Product(0x55c350bda9ccf76666ea12f1ab853524028ce6c8853f0ba50066fc1260da7d26, 0x1343093195196b9fcca7c68ce4000000000000000, 0x30ce0e22a08213e19c1967ba8fade8ac3428f894b27ffd5c9fcd7aef72c89003);
    Link(5, 5, 0x1343093195196b9fcca7c68ce4000000000000000, 0x55c350bda9ccf76666ea12f1ab853524028ce6c8853f0ba50066fc1260da7d26, 0x1343093195196b9fcca7c68ce4000000000000000, 0x30ce0e22a08213e19c1967ba8fade8ac3428f894b27ffd5c9fcd7aef72c89003);
  }

  lemma Chain20()
    requires FPow(36, Ones(10)) == 0x30ce0e22a08213e19c1967ba8fade8ac3428f894b27ffd5c9fcd7aef72c89003
    ensures FPow(36, Ones(20)) == 0x56641fe5bf75b6fbcff3cfce62935ce811444e5f8961c13c1aac194836b4fc03
  {
    hide FPow, Squared, FMul, Red;
    Squarings10At0();
    Product(0x726ea67a51e323130f681ce077e78c8010f4cc4e3d3f231ed5b8bf445b52c2f2, 0x30ce0e22a08213e19c1967ba8fade8ac3428f894b27ffd5c9fcd7aef72c89003, 0x56641fe5bf75b6fbcff3cfce62935ce811444e5f8961c13c1aac194836b4fc03);
    Link(10, 10, 0x30ce0e22a08213e19c1967ba8fade8ac3428f894b27ffd5c9fcd7aef72c89003, 0x726ea67a51e323130f681ce077e78c8010f4cc4e3d3f231ed5b8bf445b52c2f2, 0x30ce0e22a08213e19c1967ba8fade8ac3428f894b27ffd5c9fcd7aef72c89003, 0x56641fe5bf75b6fbcff3cfce62935ce811444e5f8961c13c1aac194836b4fc03);
  }

  lemma Chain40()
    requires FPow(36, Ones(20)) == 0x56641fe5bf75b6fbcff3cfce62935ce811444e5f8961c13c1aac194836b4fc03
    ensures FPow(36, Ones(40)) == 0x3f018d15502bd983704c5d31d33440c1bcbe7a950300703c77ff489c74ce3181
  {
    hide FPow, Squared, FMul, Red;
    Squarings20At0();
    Product(0x68bdcdcd30947166ff4edb7f20684ce706cc4c99a5d088351448328b708d0582, 0x56641fe5bf75b6fbcff3cfce62935ce811444e5f8961c13c1aac194836b4fc03, 0x3f018d15502bd983704c5d31d33440c1bcbe7a950300703c77ff489c74ce3181);
    Link(20, 20, 0x56641fe5bf75b6fbcff3cfce62935ce811444e5f8961c13c1aac194836b4fc03, 0x68bdcdcd30947166ff4edb7f20684ce706cc4c99a5d088351448328b708d0582, 0x56641fe5bf75b6fbcff3cfce62935ce811444e5f8961c13c1aac194836b4fc03, 0x3f018d15502bd983704c5d31d33440c1bcbe7a950300703c77ff489c74ce3181);
  }

  lemma Chain50()
    requires FPow(36, Ones(40)) == 0x3f018d15502bd983704c5d31d33440c1bcbe7a950300703c77ff489c74ce3181 && FPow(36, Ones(10)) == 0x30ce0e22a08213e19c1967ba8fade8ac3428f894b27ffd5c9fcd7aef72c89003
    ensures FPow(36, Ones(50)) == 0x1134c36f4b46fcb6152e26783702f70bbeb4d02f488573fc07b3d72e96144e6b
  {
    hide FPow, Squared, FMul, Red;
    Squarings40At0();
    Product(0x322e0b89516c8c54c1e999490730e43687d10652878392ec4b9597f46dc8e2fe, 0x30ce0e22a08213e19c1967ba8fade8ac3428f894b27ffd5c9fcd7aef72c89003, 0x1134c36f4b46fcb6152e26783702f70bbeb4d02f488573fc07b3d72e96144e6b);
    Link(40, 10, 0x3f018d15502bd983704c5d31d33440c1bcbe7a950300703c77ff489c74ce3181, 0x322e0b89516c8c54c1e999490730e43687d10652878392ec4b9597f46dc8e2fe, 0x30ce0e22a08213e19c1967ba8fade8ac3428f894b27ffd5c9fcd7aef72c89003, 0x1134c36f4b46fcb6152e26783702f70bbeb4d02f488573fc07b3d72e96144e6b);
  }

  lemma Chain100()
    requires FPow(36, Ones(50)) == 0x1134c36f4b46fcb6152e26783702f70bbeb4d02f488573fc07b3d72e96144e6b
    ensures FPow(36, Ones(100)) == 0x9b4c0ceee9ab4c909e0e6057008be22907cdd32dbe07813d507c7a86afde3a4
  {
    hide FPow, Squared, FMul, Red;
    Squarings50At0();
    Squarings50At25();
    SquaredAdd(0x1134c36f4b46fcb6152e26783702f70bbeb4d02f488573fc07b3d72e96144e6b, 25, 25);
    Product(0x5c09e705c4a3c0e85b39d7c414a1de72f677208f902f94c0bc4047b1eb4b9114, 0x1134c36f4b46fcb6152e26783702f70bbeb4d02f488573fc07b3d72e96144e6b, 0x9b4c0ceee9ab4c909e0e6057008be22907cdd32dbe07813d507c7a86afde3a4);
    Link(50, 50, 0x1134c36f4b46fcb6152e26783702f70bbeb4d02f488573fc07b3d72e96144e6b, 0x5c09e705c4a3c0e85b39d7c414a1de72f677208f902f94c0bc4047b1eb4b9114, 0x1134c36f4b46fcb6152e26783702f70bbeb4d02f488573fc07b3d72e96144e6b, 0x9b4c0ceee9ab4c909e0e6057008be22907cdd32dbe07813d507c7a86afde3a4);
  }

  lemma Chain200()
    requires FPow(36, Ones(100)) == 0x9b4c0ceee9ab4c909e0e6057008be22907cdd32dbe07813d507c7a86afde3a4
    ensures FPow(36, Ones(200)) == 0x6e4f6fec64a420c514ab1ff5a228e97651357f04320aa03cb580f53fee9216fc
  {
    hide FPow, Squared, FMul, Red;
    Squarings100At0();
    Squarings100At25();
    SquaredAdd(0x9b4c0ceee9ab4c909e0e6057008be22907cdd32dbe07813d507c7a86afde3a4, 25, 25);
    Squarings100At50();
    SquaredAdd(0x9b4c0ceee9ab4c909e0e6057008be22907cdd32dbe07813d507c7a86afde3a4, 50, 25);
    Squarings100At75();
    SquaredAdd(0x9b4c0ceee9ab4c909e0e6057008be22907cdd32dbe07813d507c7a86afde3a4, 75, 25);
    Product(0x57140394510c2b4081a51b81500bef05bc9da0344f6a0d4c093abedad2670ab4, 0x9b4c0ceee9ab4c909e0e6057008be22907cdd32dbe07813d507c7a86afde3a4, 0x6e4f6fec64a420c514ab1ff5a228e97651357f04320aa03cb580f53fee9216fc);
    Link(100, 100, 0x9b4c0ceee9ab4c909e0e6057008be22907cdd32dbe07813d507c7a86afde3a4, 0x57140394510c2b4081a51b81500bef05bc9da0344f6a0d4c093abedad2670ab4, 0x9b4c0ceee9ab4c909e0e6057008be22907cdd32dbe07813d507c7a86afde3a4, 0x6e4f6fec64a420c514ab1ff5a228e97651357f04320aa03cb580f53fee9216fc);
  }

  lemma Chain250()
    requires FPow(36, Ones(200)) == 0x6e4f6fec64a420c514ab1ff5a228e97651357f04320aa03cb580f53fee9216fc && FPow(36, Ones(50)) == 0x1134c36f4b46fcb6152e26783702f70bbeb4d02f488573fc07b3d72e96144e6b
    ensures FPow(36, Ones(250)) == 0x2960860d89ba22bb28647502308c4850b1e4347d3ef1c0c055d61ea8ac6fb45a
  {
    hide FPow, Squared, FMul, Red;
    Squarings200At0();
    Squarings200At25();
    SquaredAdd(0x6e4f6fec64a420c514ab1ff5a228e97651357f04320aa03cb580f53fee9216fc, 25, 25);
    Product(0x22aacc411784efc0fedd8e7983192997371a3e1137a0dc2784b8ab1925453f9f, 0x1134c36f4b46fcb6152e26783702f70bbeb4d02f488573fc07b3d72e96144e6b, 0x2960860d89ba22bb28647502308c4850b1e4347d3ef1c0c055d61ea8ac6fb45a);
    Link(200, 50, 0x6e4f6fec64a420c514ab1ff5a228e97651357f04320aa03cb580f53fee9216fc, 0x22aacc411784efc0fedd8e7983192997371a3e1137a0dc2784b8ab1925453f9f, 0x1134c36f4b46fcb6152e26783702f70bbeb4d02f488573fc07b3d72e96144e6b, 0x2960860d89ba22bb28647502308c4850b1e4347d3ef1c0c055d61ea8ac6fb45a);
  }

  lemma PowerOf36()
    ensures FPow(36, P - 1) == 1
  {
    hide FPow, Squared, Ones, FMul, Red;
    Start();
    Chain10();
    Chain20();
    Chain40();
    Chain50();
    Chain100();
    Chain200();
    Chain250();
    Squarings250At0();
    SquaredIsPow(0x2960860d89ba22bb28647502308c4850b1e4347d3ef1c0c055d61ea8ac6fb45a, 5);
    LastStep(36);
    Product(0x1108ee3b36b4b5e29b3b292da153577849342fb467464e1cdda914929eb27202, 0x1d39d3e06400000, 0x51c71c71c71c71c71c71c71c71c71c71c71c71c71c71c71c71c71c71c71c71bb);
    PowAdd(36, P - 2, 1);
    PowOne(36);
    RedRange(36);
    Product(0x51c71c71c71c71c71c71c71c71c71c71c71c71c71c71c71c71c71c71c71c71bb, 36, 1);
  }
}
