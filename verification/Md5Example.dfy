/** The digest of the message "abc", worked out step by step: the second value of appendix A.5 of RFC 1321. */
module Md5Example {
  import opened Md5
  import opened Md5Digest

  /** The one block of the padded message, as words. */
  function AbcWords(): (x: seq<bv32>)
    ensures |x| == 16
  {
    [0x80636261, 0, 0, 0, 0, 0, 0, 0, 0, 0, 0, 0, 0, 0, 24, 0]
  }

  function After(n: nat): State
    requires n <= 64
  {
    Rounds(INITIAL, AbcWords(), n)
  }

  /** One step on known words: `f` is mixed from them, `w` is the word of the block, `e` the new word. */
  lemma {:induction false} Known(i: nat, a: bv32, b: bv32, c: bv32, d: bv32, k: nat, t: bv32, s: nat, w: bv32,
                                 f: bv32, p: bv32, q: bv32, u: bv32, v: bv32, e: bv32)
    requires i < 64 && After(i) == State(a, b, c, d) && Row(i, k, t, s) && k < 16 && AbcWords()[k] == w && s <= 32
    requires Mix(i, b, c, d) == f && Add(w, t) == p && Add(f, p) == q && Add(a, q) == u && Rotate(u, s) == v && Add(v, b) == e
    ensures After(i + 1) == State(d, e, b, c)
  {
    hide AbcWords, Rotate, Pick, Turn, Sine, Mix, Add;
    assert After(i + 1) == Step(After(i), AbcWords(), i);
  }

  lemma {:induction false} Steps0()
    requires After(0) == State(0x67452301, 0xefcdab89, 0x98badcfe, 0x10325476)
    ensures After(8) == State(0xc73741ef, 0x928d99f6, 0x207dc67b, 0x8bac3051)
  {
    Rows1();
    hide After, Rounds, Row, Pick, Turn, Sine;
    Known(0, 0x67452301, 0xefcdab89, 0x98badcfe, 0x10325476, 0, 0xd76aa478, 7, 0x80636261, 0x98badcfe, 0x57ce06d9, 0xf088e3d7, 0x57ce06d8, 0xe7036c2b, 0xd6d117b4);
    Known(1, 0x10325476, 0xd6d117b4, 0xefcdab89, 0x98badcfe, 1, 0xe8c7b756, 12, 0x0, 0xceebcbca, 0xe8c7b756, 0xb7b38320, 0xc7e5d796, 0x5d796c7e, 0x344a8432);
    Known(2, 0x98badcfe, 0x344a8432, 0xd6d117b4, 0xefcdab89, 2, 0x242070db, 17, 0x0, 0xdfc52fb9, 0x242070db, 0x03e5a094, 0x9ca07d92, 0xfb253940, 0x2f6fbd72);
    Known(3, 0xefcdab89, 0x2f6fbd72, 0x344a8432, 0xd6d117b4, 3, 0xc1bdceee, 22, 0x0, 0xf4da86b6, 0xc1bdceee, 0xb69855a4, 0xa666012d, 0x4b699980, 0x7ad956f2);
    Known(4, 0xd6d117b4, 0x7ad956f2, 0x2f6fbd72, 0x344a8432, 4, 0xf57c0faf, 7, 0x0, 0x2e4b9472, 0xf57c0faf, 0x23c7a421, 0xfa98bbd5, 0x4c5deafd, 0xc73741ef);
    Known(5, 0x344a8432, 0xc73741ef, 0x7ad956f2, 0x2f6fbd72, 5, 0x4787c62a, 12, 0x0, 0x6a59fcf2, 0x4787c62a, 0xb1e1c31c, 0xe62c474e, 0xc474ee62, 0x8bac3051);
    Known(6, 0x2f6fbd72, 0x8bac3051, 0xc73741ef, 0x7ad956f2, 6, 0xa8304613, 17, 0x0, 0xf37546e3, 0xa8304613, 0x9ba58cf6, 0xcb154a68, 0x94d1962a, 0x207dc67b);
    Known(7, 0x7ad956f2, 0x207dc67b, 0x8bac3051, 0xc73741ef, 7, 0xfd469501, 22, 0x0, 0xc72e01d5, 0xfd469501, 0xc47496d6, 0x3f4dedc8, 0x720fd37b, 0x928d99f6);
  }

  lemma {:induction false} Steps8()
    requires After(8) == State(0xc73741ef, 0x928d99f6, 0x207dc67b, 0x8bac3051)
    ensures After(16) == State(0xdda9b9a6, 0x72aff2e0, 0xe396856b, 0xa1051895)
  {
    Rows2();
    hide After, Rounds, Row, Pick, Turn, Sine;
    Known(8, 0xc73741ef, 0x928d99f6, 0x207dc67b, 0x8bac3051, 8, 0x698098d8, 7, 0x0, 0x092da073, 0x698098d8, 0x72ae394b, 0x39e57b3a, 0xf2bd9d1c, 0x854b3712);
    Known(9, 0x8bac3051, 0x854b3712, 0x928d99f6, 0x207dc67b, 9, 0x8b44f7af, 12, 0x0, 0xa03dd17b, 0x8b44f7af, 0x2b82c92a, 0xb72ef97b, 0xef97bb72, 0x74e2f284);
    Known(10, 0x207dc67b, 0x74e2f284, 0x854b3712, 0x928d99f6, 10, 0xffff5bb1, 17, 0x0, 0x864f3b72, 0xffff5bb1, 0x864e9723, 0xa6cc5d9e, 0xbb3d4d98, 0x3020401c);
    Known(11, 0x928d99f6, 0x3020401c, 0x74e2f284, 0x854b3712, 11, 0x895cd7be, 22, 0x0, 0xb56b7706, 0x895cd7be, 0x3ec84ec4, 0xd155e8ba, 0x2eb4557a, 0x5ed49596);
    Known(12, 0x854b3712, 0x5ed49596, 0x3020401c, 0x74e2f284, 12, 0x6b901122, 7, 0x0, 0x30226214, 0x6b901122, 0x9bb27336, 0x20fdaa48, 0x7ed52410, 0xdda9b9a6);
    Known(13, 0x74e2f284, 0xdda9b9a6, 0x5ed49596, 0x3020401c, 13, 0xfd987193, 12, 0x0, 0x7c80d19e, 0xfd987193, 0x7a194331, 0xeefc35b5, 0xc35b5eef, 0xa1051895);
    Known(14, 0x3020401c, 0xa1051895, 0xdda9b9a6, 0x5ed49596, 14, 0xa679438e, 17, 0x18, 0xdfd19d86, 0xa67943a6, 0x864ae12c, 0xb66b2148, 0x42916cd6, 0xe396856b);
    Known(15, 0x5ed49596, 0xe396856b, 0xa1051895, 0xdda9b9a6, 15, 0x49b40821, 22, 0x0, 0xbd2d3885, 0x49b40821, 0x06e140a6, 0x65b5d63c, 0x8f196d75, 0x72aff2e0);
  }

  lemma {:induction false} Steps16()
    requires After(16) == State(0xdda9b9a6, 0x72aff2e0, 0xe396856b, 0xa1051895)
    ensures After(24) == State(0x59a8ffda, 0x47092c07, 0xabfc7920, 0x6d002f1e)
  {
    Rows3();
    hide After, Rounds, Row, Pick, Turn, Sine;
    Known(16, 0xdda9b9a6, 0x72aff2e0, 0xe396856b, 0xa1051895, 1, 0xf61e2562, 5, 0x0, 0x629795ea, 0xf61e2562, 0x58b5bb4c, 0x365f74f2, 0xcbee9e46, 0x3e9e9126);
    Known(17, 0xa1051895, 0x3e9e9126, 0x72aff2e0, 0xe396856b, 6, 0xc040b340, 9, 0x0, 0x32bff3a2, 0xc040b340, 0xf300a6e2, 0x9405bf77, 0x0b7eef28, 0x4a1d804e);
    Known(18, 0xe396856b, 0x4a1d804e, 0x3e9e9126, 0x72aff2e0, 11, 0x265e5a51, 14, 0x0, 0x4e1d8146, 0x265e5a51, 0x747bdb97, 0x58126102, 0x98409604, 0xe25e1652);
    Known(19, 0x72aff2e0, 0xe25e1652, 0x4a1d804e, 0x3e9e9126, 0, 0xe9b6c7aa, 20, 0x80636261, 0x621f104a, 0x6a1a2a0b, 0xcc393a55, 0x3ee92d35, 0xd353ee92, 0xb5b204e4);
    Known(20, 0x3e9e9126, 0xb5b204e4, 0xe25e1652, 0x4a1d804e, 5, 0xd62f105d, 5, 0x0, 0xa0521654, 0xd62f105d, 0x768126b1, 0xb51fb7d7, 0xa3f6faf6, 0x59a8ffda);
    Known(21, 0x4a1d804e, 0x59a8ffda, 0xb5b204e4, 0xe25e1652, 10, 0x02441453, 9, 0x0, 0x55a816f6, 0x02441453, 0x57ec2b49, 0xa209ab97, 0x13572f44, 0x6d002f1e);
    Known(22, 0xe25e1652, 0x6d002f1e, 0x59a8ffda, 0xb5b204e4, 15, 0xd8a1e681, 14, 0x0, 0x6d08ff1e, 0xd8a1e681, 0x45aae59f, 0x2808fbf1, 0x3efc4a02, 0xabfc7920);
    Known(23, 0xb5b204e4, 0xabfc7920, 0x6d002f1e, 0x59a8ffda, 4, 0xe7d3fbc8, 20, 0x0, 0x2da87904, 0xe7d3fbc8, 0x157c74cc, 0xcb2e79b0, 0x9b0cb2e7, 0x47092c07);
  }

  lemma {:induction false} Steps24()
    requires After(24) == State(0x59a8ffda, 0x47092c07, 0xabfc7920, 0x6d002f1e)
    ensures After(32) == State(0x790a77fb, 0x726342d3, 0xa62884aa, 0x9f47e4f8)
  {
    Rows4();
    hide After, Rounds, Row, Pick, Turn, Sine;
    Known(24, 0x59a8ffda, 0x47092c07, 0xabfc7920, 0x6d002f1e, 9, 0x21e1cde6, 5, 0x0, 0xc7fc7c26, 0x21e1cde6, 0xe9de4a0c, 0x438749e6, 0x70e93cc8, 0xb7f268cf);
    Known(25, 0x6d002f1e, 0xb7f268cf, 0x47092c07, 0xabfc7920, 14, 0xc33707d6, 9, 0x18, 0xe7f16c07, 0xc33707ee, 0xab2873f5, 0x1828a313, 0x51462630, 0x09388eff);
    Known(26, 0xabfc7920, 0x09388eff, 0xb7f268cf, 0x47092c07, 3, 0xf4d50d87, 14, 0x0, 0xb1fa4ccf, 0xf4d50d87, 0xa6cf5a56, 0x52cbd376, 0xf4dd94b2, 0xfe1623b1);
    Known(27, 0x47092c07, 0xfe1623b1, 0x09388eff, 0xb7f268cf, 8, 0x455a14ed, 20, 0x0, 0xbe1aa6b1, 0x455a14ed, 0x0374bb9e, 0x4a7de7a5, 0x7a54a7de, 0x786acb8f);
    Known(28, 0xb7f268cf, 0x786acb8f, 0xfe1623b1, 0x09388eff, 13, 0xa9e3e905, 5, 0x0, 0xfe2eab8f, 0xa9e3e905, 0xa8129494, 0x6004fd63, 0x009fac6c, 0x790a77fb);
    Known(29, 0x09388eff, 0x790a77fb, 0x786acb8f, 0xfe1623b1, 2, 0xfcefa3f8, 9, 0x0, 0x786aebbf, 0xfcefa3f8, 0x755a8fb7, 0x7e931eb6, 0x263d6cfd, 0x9f47e4f8);
    Known(30, 0xfe1623b1, 0x9f47e4f8, 0x790a77fb, 0x786acb8f, 7, 0x676f02d9, 14, 0x0, 0x1942f4f8, 0x676f02d9, 0x80b1f7d1, 0x7ec81b82, 0x06e09fb2, 0xa62884aa);
    Known(31, 0x786acb8f, 0xa62884aa, 0x9f47e4f8, 0x790a77fb, 12, 0x8d2a4c8a, 20, 0x0, 0xa64d84aa, 0x8d2a4c8a, 0x3377d134, 0xabe29cc3, 0xcc3abe29, 0x726342d3);
  }

  lemma {:induction false} Steps32()
    requires After(32) == State(0x790a77fb, 0x726342d3, 0xa62884aa, 0x9f47e4f8)
    ensures After(40) == State(0x21b117b9, 0x5a2f5ea5, 0x3575227e, 0x6e7429d5)
  {
    Rows5();
    hide After, Rounds, Row, Pick, Turn, Sine;
    Known(32, 0x790a77fb, 0x726342d3, 0xa62884aa, 0x9f47e4f8, 5, 0xfffa3942, 4, 0x0, 0x4b0c2281, 0xfffa3942, 0x4b065bc3, 0xc410d3be, 0x410d3bec, 0xb3707ebf);
    Known(33, 0x9f47e4f8, 0xb3707ebf, 0x726342d3, 0xa62884aa, 8, 0x8771f681, 11, 0x0, 0x673bb8c6, 0x8771f681, 0xeeadaf47, 0x8df5943f, 0xaca1fc6f, 0x60127b2e);
    Known(34, 0xa62884aa, 0x60127b2e, 0xb3707ebf, 0x726342d3, 11, 0x6d9d6122, 16, 0x0, 0xa1014742, 0x6d9d6122, 0x0e9ea864, 0xb4c72d0e, 0x2d0eb4c7, 0x8d212ff5);
    Known(35, 0x726342d3, 0x8d212ff5, 0x60127b2e, 0xb3707ebf, 14, 0xfde5380c, 23, 0x18, 0x5e432a64, 0xfde53824, 0x5c286288, 0xce8ba55b, 0xade745d2, 0x3b0875c7);
    Known(36, 0xb3707ebf, 0x3b0875c7, 0x8d212ff5, 0x60127b2e, 1, 0xa4beea44, 4, 0x0, 0xd63b211c, 0xa4beea44, 0x7afa0b60, 0x2e6a8a1f, 0xe6a8a1f2, 0x21b117b9);
    Known(37, 0x60127b2e, 0x21b117b9, 0x3b0875c7, 0x8d212ff5, 4, 0x4bdecfa9, 11, 0x0, 0x97984d8b, 0x4bdecfa9, 0xe3771d34, 0x43899862, 0x4cc3121c, 0x6e7429d5);
    Known(38, 0x8d212ff5, 0x6e7429d5, 0x21b117b9, 0x3b0875c7, 7, 0xf6bb4b60, 16, 0x0, 0x74cd4bab, 0xf6bb4b60, 0x6b88970b, 0xf8a9c700, 0xc700f8a9, 0x3575227e);
    Known(39, 0x3b0875c7, 0x3575227e, 0x6e7429d5, 0x21b117b9, 10, 0xbebfbc70, 23, 0x0, 0x7ab01c12, 0xbebfbc70, 0x396fd882, 0x74784e49, 0x24ba3c27, 0x5a2f5ea5);
  }

  lemma {:induction false} Steps40()
    requires After(40) == State(0x21b117b9, 0x5a2f5ea5, 0x3575227e, 0x6e7429d5)
    ensures After(48) == State(0x7f2e507b, 0x7beb9700, 0x8fae6399, 0x99d9679d)
  {
    Rows6();
    hide After, Rounds, Row, Pick, Turn, Sine;
    Known(40, 0x21b117b9, 0x5a2f5ea5, 0x3575227e, 0x6e7429d5, 13, 0x289b7ec6, 4, 0x0, 0x012e550e, 0x289b7ec6, 0x29c9d3d4, 0x4b7aeb8d, 0xb7aeb8d4, 0x11de1779);
    Known(41, 0x6e7429d5, 0x11de1779, 0x5a2f5ea5, 0x3575227e, 0, 0xeaa127fa, 11, 0x80636261, 0x7e846ba2, 0x6b048a5b, 0xe988f5fd, 0x57fd1fd2, 0xe8fe92bf, 0xfadcaa38);
    Known(42, 0x3575227e, 0xfadcaa38, 0x11de1779, 0x5a2f5ea5, 3, 0xd4ef3085, 16, 0x0, 0xb12de3e4, 0xd4ef3085, 0x861d1469, 0xbb9236e7, 0x36e7bb92, 0x31c465ca);
    Known(43, 0x5a2f5ea5, 0x31c465ca, 0xfadcaa38, 0x11de1779, 6, 0x04881d05, 23, 0x0, 0xdac6d88b, 0x04881d05, 0xdf4ef590, 0x397e5435, 0x1a9cbf2a, 0x4c6124f4);
    Known(44, 0x11de1779, 0x4c6124f4, 0x31c465ca, 0xfadcaa38, 9, 0xd9d4d039, 4, 0x0, 0x8779eb06, 0xd9d4d039, 0x614ebb3f, 0x732cd2b8, 0x32cd2b87, 0x7f2e507b);
    Known(45, 0xfadcaa38, 0x7f2e507b, 0x4c6124f4, 0x31c465ca, 12, 0xe6db99e5, 11, 0x0, 0x028b1145, 0xe6db99e5, 0xe966ab2a, 0xe4435562, 0x1aab1722, 0x99d9679d);
    Known(46, 0x31c465ca, 0x99d9679d, 0x7f2e507b, 0x4c6124f4, 15, 0x1fa27cf8, 16, 0x0, 0xaa961312, 0x1fa27cf8, 0xca38900a, 0xfbfcf5d4, 0xf5d4fbfc, 0x8fae6399);
    Known(47, 0x4c6124f4, 0x8fae6399, 0x99d9679d, 0x7f2e507b, 2, 0xc4ac5665, 23, 0x0, 0x6959547f, 0xc4ac5665, 0x2e05aae4, 0x7a66cfd8, 0xec3d3367, 0x7beb9700);
  }

  lemma {:induction false} Steps48()
    requires After(48) == State(0x7f2e507b, 0x7beb9700, 0x8fae6399, 0x99d9679d)
    ensures After(56) == State(0x06cc5e8a, 0x3bfa2c27, 0x7d632dd0, 0x5b0d97aa)
  {
    Rows7();
    hide After, Rounds, Row, Pick, Turn, Sine;
    Known(48, 0x7f2e507b, 0x7beb9700, 0x8fae6399, 0x99d9679d, 0, 0xf4292244, 6, 0x80636261, 0xf041fcfb, 0x748c84a5, 0x64ce81a0, 0xe3fcd21b, 0xff3486f8, 0x7b201df8);
    Known(49, 0x99d9679d, 0x7b201df8, 0x7beb9700, 0x8fae6399, 7, 0x432aff97, 10, 0x0, 0x009a0afe, 0x432aff97, 0x43c50a95, 0xdd9e7232, 0x79c8cb76, 0xf4e8e96e);
    Known(50, 0x8fae6399, 0xf4e8e96e, 0x7b201df8, 0x7beb9700, 14, 0xab9423a7, 15, 0x18, 0x8fdcf407, 0xab9423bf, 0x3b7117c6, 0xcb1f7b5f, 0xbdafe58f, 0xb298cefd);
    Known(51, 0x7beb9700, 0xb298cefd, 0xf4e8e96e, 0x7b201df8, 5, 0xfc93a039, 21, 0x0, 0x42370791, 0xfc93a039, 0x3ecaa7ca, 0xbab63eca, 0xd95756c7, 0x8bf025c4);
    Known(52, 0x7b201df8, 0x8bf025c4, 0xb298cefd, 0xf4e8e96e, 12, 0x655b59c3, 6, 0x0, 0x396ff928, 0x655b59c3, 0x9ecb52eb, 0x19eb70e3, 0x7adc38c6, 0x06cc5e8a);
    Known(53, 0xf4e8e96e, 0x06cc5e8a, 0x8bf025c4, 0xb298cefd, 3, 0x8f0ccc92, 10, 0x0, 0xc41f5a4e, 0x8f0ccc92, 0x532c26e0, 0x4815104e, 0x54413920, 0x5b0d97aa);
    Known(54, 0xb298cefd, 0x5b0d97aa, 0x06cc5e8a, 0x8bf025c4, 10, 0xffeff47d, 15, 0x0, 0x79c38131, 0xffeff47d, 0x79b375ae, 0x2c4c44ab, 0x22559626, 0x7d632dd0);
    Known(55, 0x8bf025c4, 0x7d632dd0, 0x5b0d97aa, 0x06cc5e8a, 1, 0x85845dd1, 21, 0x0, 0xa67e3a5f, 0x85845dd1, 0x2c029830, 0xb7f2bdf4, 0xbe96fe57, 0x3bfa2c27);
  }

  lemma {:induction false} Steps56()
    requires After(56) == State(0x06cc5e8a, 0x3bfa2c27, 0x7d632dd0, 0x5b0d97aa)
    ensures After(64) == State(0x310ade8f, 0xc08226b3, 0xe484b9d8, 0x624d8cb2)
  {
    Rows8();
    hide After, Rounds, Row, Pick, Turn, Sine;
    Known(56, 0x06cc5e8a, 0x3bfa2c27, 0x7d632dd0, 0x5b0d97aa, 8, 0x6fa87e4f, 6, 0x0, 0xc29941a7, 0x6fa87e4f, 0x3241bff6, 0x390e1e80, 0x4387a00e, 0x7f81cc35);
    Known(57, 0x5b0d97aa, 0x7f81cc35, 0x3bfa2c27, 0x7d632dd0, 15, 0xfe2ce6e0, 10, 0x0, 0xc467f218, 0xfe2ce6e0, 0xc294d8f8, 0x1da270a2, 0x89c28876, 0x094454ab);
    Known(58, 0x7d632dd0, 0x094454ab, 0x7f81cc35, 0x3bfa2c27, 6, 0xa3014314, 15, 0x0, 0xb2c41bce, 0xa3014314, 0x55c55ee2, 0xd3288cb2, 0x46596994, 0x4f9dbe3f);
    Known(59, 0x3bfa2c27, 0x4f9dbe3f, 0x094454ab, 0x7f81cc35, 13, 0x4e0811a1, 21, 0x0, 0xc6bbeb54, 0x4e0811a1, 0x14c3fcf5, 0x50be291c, 0x238a17c5, 0x7327d604);
    Known(60, 0x7f81cc35, 0x7327d604, 0x4f9dbe3f, 0x094454ab, 4, 0xf7537e82, 6, 0x0, 0xb822416b, 0xf7537e82, 0xaf75bfed, 0x2ef78c22, 0xbde3088b, 0x310ade8f);
    Known(61, 0x094454ab, 0x310ade8f, 0x7327d604, 0x4f9dbe3f, 11, 0xbd3af235, 10, 0x0, 0xc24d09cb, 0xbd3af235, 0x7f87fc00, 0x88cc50ab, 0x3142ae23, 0x624d8cb2);
    Known(62, 0x4f9dbe3f, 0x624d8cb2, 0x310ade8f, 0x7327d604, 2, 0x2ad7d2bb, 15, 0x0, 0xdfd77374, 0x2ad7d2bb, 0x0aaf462f, 0x5a4d046e, 0x82372d26, 0xe484b9d8);
    Known(63, 0x7327d604, 0xe484b9d8, 0x624d8cb2, 0x310ade8f, 9, 0xeb86d391, 21, 0x0, 0x8cb8354a, 0xeb86d391, 0x783f08db, 0xeb66dedf, 0xdbfd6cdb, 0xc08226b3);
  }

  lemma {:induction false} AbcPadded()
    ensures Pad([0x61, 0x62, 0x63]) == [0x61, 0x62, 0x63] + [0x80] + Zeros(52) + [24, 0, 0, 0, 0, 0, 0, 0]
  {
    AbcLength();
    hide LengthWords, ZerosNeeded, Zeros;
  }

  lemma {:induction false} BlockWord(p: Bytes, i: nat)
    requires p == [0x61, 0x62, 0x63] + [0x80] + Zeros(52) + [24, 0, 0, 0, 0, 0, 0, 0] && i < 16
    ensures |p| == 64 && Words(p)[i] == if i == 0 then 0x80636261 else if i == 14 then 24 else 0
  {
    Gets();
    hide Get;
    assert Words(p)[i] == Get(p[4 * i], p[4 * i + 1], p[4 * i + 2], p[4 * i + 3]);
    assert p[0] == 0x61 && p[1] == 0x62 && p[2] == 0x63 && p[3] == 0x80 && p[56] == 24;
    assert forall k :: 4 <= k < 64 && k != 56 ==> p[k] == 0;
  }

  /** The padded message is one block, and these are its words. */
  lemma {:induction false} AbcBlock()
    ensures var p := Pad([0x61, 0x62, 0x63]); |p| == 64 && Words(p) == AbcWords()
  {
    var p := Pad([0x61, 0x62, 0x63]);
    AbcPadded();
    hide Pad, Zeros, Words;
    BlockWord(p, 0);
    forall i | 0 <= i < 16
      ensures Words(p)[i] == AbcWords()[i]
    {
      BlockWord(p, i);
    }
  }

  lemma {:induction false} AbcLength()
    ensures LengthWords([0x61, 0x62, 0x63]) == [24, 0, 0, 0, 0, 0, 0, 0] && ZerosNeeded(3) == 52
  {
    assert AsWord(24) == 24 && AsWord(0) == 0;
    hide AsWord;
  }

  lemma {:induction false} Gets()
    ensures Get(0x61, 0x62, 0x63, 0x80) == 0x80636261 && Get(0, 0, 0, 0) == 0 && Get(24, 0, 0, 0) == 24
  {
  }

  /** Main result: the MD5 of "abc" is 900150983cd24fb0d6963f7d28e17f72. */
  lemma {:induction false} DigestOfAbc()
    ensures Digest([0x61, 0x62, 0x63])
         == [0x90, 0x01, 0x50, 0x98, 0x3c, 0xd2, 0x4f, 0xb0,
             0xd6, 0x96, 0x3f, 0x7d, 0x28, 0xe1, 0x7f, 0x72]
  {
    var p := Pad([0x61, 0x62, 0x63]);
    AbcBlock();
    assert [] + p == p && Chain([]) == INITIAL;
    ChainOn([], p);
    AllSteps();
    Sums();
    Bytes16();
    hide *;
  }

  lemma {:induction false} AllSteps()
    ensures Rounds(INITIAL, AbcWords(), 64) == State(0x310ade8f, 0xc08226b3, 0xe484b9d8, 0x624d8cb2)
  {
    assert After(0) == State(0x67452301, 0xefcdab89, 0x98badcfe, 0x10325476);
    assert After(64) == Rounds(INITIAL, AbcWords(), 64);
    hide After, Rounds, AbcWords;
    Steps0();
    Steps8();
    Steps16();
    Steps24();
    Steps32();
    Steps40();
    Steps48();
    Steps56();
  }

  lemma {:induction false} Sums()
    ensures AddStates(INITIAL, State(0x310ade8f, 0xc08226b3, 0xe484b9d8, 0x624d8cb2)) == State(0x98500190, 0xb04fd23c, 0x7d3f96d6, 0x727fe128)
  {
  }

  lemma {:induction false} Bytes16()
    ensures Output(State(0x98500190, 0xb04fd23c, 0x7d3f96d6, 0x727fe128))
         == [0x90, 0x01, 0x50, 0x98, 0x3c, 0xd2, 0x4f, 0xb0,
             0xd6, 0x96, 0x3f, 0x7d, 0x28, 0xe1, 0x7f, 0x72]
  {
  }
}
