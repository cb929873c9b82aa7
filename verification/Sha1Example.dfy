/** The worked example of appendix A of FIPS 180-1: the message "abc". Every word of its schedule and the registers
    after every round are given in numbers, and so is the digest. */
module Sha1Example {
  import opened Sha1Spec

  const MESSAGE: seq<bv8> := [0x61, 0x62, 0x63]

  /** The message is padded to one block. */
  predicate IsBlock(block: seq<bv8>) {
    |block| == BLOCK && block == Pad(MESSAGE)
  }

  lemma Padding(block: seq<bv8>)
    requires IsBlock(block)
    ensures block[0] == 0x61 && block[1] == 0x62 && block[2] == 0x63 && block[3] == 0x80 && block[63] == 24
    ensures forall i | 4 <= i < 63 :: block[i] == 0
  {
    hide Zeros, Length64;
    ZerosLength(52);
    Lengths();
    assert (55 - 3) % 64 == 52;
  }

  lemma Lengths()
    ensures Length64(24) == [0, 0, 0, 0, 0, 0, 0, 24]
  {
    assert 24 % 256 == 24 && 24 / 256 == 0;
  }

  /** The first sixteen words are the bytes of the block. */
  lemma Loaded(block: seq<bv8>, t: nat, b0: bv8, b1: bv8, b2: bv8, b3: bv8, w: Word)
    requires IsBlock(block) && t < 16 && BigEndian(b0, b1, b2, b3) == w
    requires block[4*t] == b0 && block[4*t+1] == b1 && block[4*t+2] == b2 && block[4*t+3] == b3
    ensures W(block, t) == w
  {
    hide BigEndian;
  }

  lemma Scheduled(block: seq<bv8>, t: nat, a: Word, b: Word, c: Word, d: Word, w: Word)
    requires IsBlock(block) && t >= 16 && Mix(a, b, c, d) == w
    requires W(block, t - 3) == a && W(block, t - 8) == b && W(block, t - 14) == c && W(block, t - 16) == d
    ensures W(block, t) == w
  {
    hide Mix, BigEndian;
  }

  /** One round, with the numbers that are added. */
  lemma Rounded(block: seq<bv8>, t: nat, r: Regs, w: Word, p: Word, q: Word, a: Word, c: Word)
    requires IsBlock(block) && Rounds(H0, block, t) == r && W(block, t) == w
    requires Rotl(5, r.a) == p && F(t, r.b, r.c, r.d) == q && Rotl(30, r.b) == c
    requires Sum(Sum(Sum(Sum(p, q), r.e), w), K(t)) == a
    ensures Rounds(H0, block, t + 1) == Regs(a, r.a, c, r.c, r.d)
  {
    hide W, Rotl, F, K, Sum, IsBlock;
  }

  lemma Words0(block: seq<bv8>)
    requires IsBlock(block)
    ensures W(block, 0) == 0x61626380
    ensures W(block, 1) == 0x00000000
    ensures W(block, 2) == 0x00000000
    ensures W(block, 3) == 0x00000000
    ensures W(block, 4) == 0x00000000
    ensures W(block, 5) == 0x00000000
    ensures W(block, 6) == 0x00000000
    ensures W(block, 7) == 0x00000000
    ensures W(block, 8) == 0x00000000
    ensures W(block, 9) == 0x00000000
  {
    hide W, Pad;
    Padding(block);
    Loaded(block, 0, 0x61, 0x62, 0x63, 0x80, 0x61626380);
    Loaded(block, 1, 0x00, 0x00, 0x00, 0x00, 0x00000000);
    Loaded(block, 2, 0x00, 0x00, 0x00, 0x00, 0x00000000);
    Loaded(block, 3, 0x00, 0x00, 0x00, 0x00, 0x00000000);
    Loaded(block, 4, 0x00, 0x00, 0x00, 0x00, 0x00000000);
    Loaded(block, 5, 0x00, 0x00, 0x00, 0x00, 0x00000000);
    Loaded(block, 6, 0x00, 0x00, 0x00, 0x00, 0x00000000);
    Loaded(block, 7, 0x00, 0x00, 0x00, 0x00, 0x00000000);
    Loaded(block, 8, 0x00, 0x00, 0x00, 0x00, 0x00000000);
    Loaded(block, 9, 0x00, 0x00, 0x00, 0x00, 0x00000000);
  }

  lemma Words10(block: seq<bv8>)
    requires IsBlock(block)
    ensures W(block, 10) == 0x00000000
    ensures W(block, 11) == 0x00000000
    ensures W(block, 12) == 0x00000000
    ensures W(block, 13) == 0x00000000
    ensures W(block, 14) == 0x00000000
    ensures W(block, 15) == 0x00000018
    ensures W(block, 16) == 0xc2c4c700
    ensures W(block, 17) == 0x00000000
    ensures W(block, 18) == 0x00000030
    ensures W(block, 19) == 0x85898e01
  {
    hide W, Pad;
    Padding(block);
    Words0(block);
    Loaded(block, 10, 0x00, 0x00, 0x00, 0x00, 0x00000000);
    Loaded(block, 11, 0x00, 0x00, 0x00, 0x00, 0x00000000);
    Loaded(block, 12, 0x00, 0x00, 0x00, 0x00, 0x00000000);
    Loaded(block, 13, 0x00, 0x00, 0x00, 0x00, 0x00000000);
    Loaded(block, 14, 0x00, 0x00, 0x00, 0x00, 0x00000000);
    Loaded(block, 15, 0x00, 0x00, 0x00, 0x18, 0x00000018);
    Scheduled(block, 16, 0x00000000, 0x00000000, 0x00000000, 0x61626380, 0xc2c4c700);
    Scheduled(block, 17, 0x00000000, 0x00000000, 0x00000000, 0x00000000, 0x00000000);
    Scheduled(block, 18, 0x00000018, 0x00000000, 0x00000000, 0x00000000, 0x00000030);
    Scheduled(block, 19, 0xc2c4c700, 0x00000000, 0x00000000, 0x00000000, 0x85898e01);
  }

  lemma Words20(block: seq<bv8>)
    requires IsBlock(block)
    ensures W(block, 20) == 0x00000000
    ensures W(block, 21) == 0x00000060
    ensures W(block, 22) == 0x0b131c03
    ensures W(block, 23) == 0x00000030
    ensures W(block, 24) == 0x85898ec1
    ensures W(block, 25) == 0x16263806
    ensures W(block, 26) == 0x00000000
    ensures W(block, 27) == 0x00000180
    ensures W(block, 28) == 0x2c4c700c
    ensures W(block, 29) == 0x000000f0
  {
    hide W, Pad;
    Words10(block);
    Words0(block);
    Scheduled(block, 20, 0x00000000, 0x00000000, 0x00000000, 0x00000000, 0x00000000);
    Scheduled(block, 21, 0x00000030, 0x00000000, 0x00000000, 0x00000000, 0x00000060);
    Scheduled(block, 22, 0x85898e01, 0x00000000, 0x00000000, 0x00000000, 0x0b131c03);
    Scheduled(block, 23, 0x00000000, 0x00000018, 0x00000000, 0x00000000, 0x00000030);
    Scheduled(block, 24, 0x00000060, 0xc2c4c700, 0x00000000, 0x00000000, 0x85898ec1);
    Scheduled(block, 25, 0x0b131c03, 0x00000000, 0x00000000, 0x00000000, 0x16263806);
    Scheduled(block, 26, 0x00000030, 0x00000030, 0x00000000, 0x00000000, 0x00000000);
    Scheduled(block, 27, 0x85898ec1, 0x85898e01, 0x00000000, 0x00000000, 0x00000180);
    Scheduled(block, 28, 0x16263806, 0x00000000, 0x00000000, 0x00000000, 0x2c4c700c);
    Scheduled(block, 29, 0x00000000, 0x00000060, 0x00000018, 0x00000000, 0x000000f0);
  }

  lemma Words30(block: seq<bv8>)
    requires IsBlock(block)
    ensures W(block, 30) == 0x93afb507
    ensures W(block, 31) == 0x5898e048
    ensures W(block, 32) == 0x8e9a9202
    ensures W(block, 33) == 0x00000600
    ensures W(block, 34) == 0xb131c0f0
    ensures W(block, 35) == 0x16263bc6
    ensures W(block, 36) == 0x4ebed41e
    ensures W(block, 37) == 0x626380a1
    ensures W(block, 38) == 0x16263806
    ensures W(block, 39) == 0x000018c0
  {
    hide W, Pad;
    Words20(block);
    Words10(block);
    Scheduled(block, 30, 0x00000180, 0x0b131c03, 0xc2c4c700, 0x00000000, 0x93afb507);
    Scheduled(block, 31, 0x2c4c700c, 0x00000030, 0x00000000, 0x00000018, 0x5898e048);
    Scheduled(block, 32, 0x000000f0, 0x85898ec1, 0x00000030, 0xc2c4c700, 0x8e9a9202);
    Scheduled(block, 33, 0x93afb507, 0x16263806, 0x85898e01, 0x00000000, 0x00000600);
    Scheduled(block, 34, 0x5898e048, 0x00000000, 0x00000000, 0x00000030, 0xb131c0f0);
    Scheduled(block, 35, 0x8e9a9202, 0x00000180, 0x00000060, 0x85898e01, 0x16263bc6);
    Scheduled(block, 36, 0x00000600, 0x2c4c700c, 0x0b131c03, 0x00000000, 0x4ebed41e);
    Scheduled(block, 37, 0xb131c0f0, 0x000000f0, 0x00000030, 0x00000060, 0x626380a1);
    Scheduled(block, 38, 0x16263bc6, 0x93afb507, 0x85898ec1, 0x0b131c03, 0x16263806);
    Scheduled(block, 39, 0x4ebed41e, 0x5898e048, 0x16263806, 0x00000030, 0x000018c0);
  }

  lemma Words40(block: seq<bv8>)
    requires IsBlock(block)
    ensures W(block, 40) == 0xd2e138c4
    ensures W(block, 41) == 0x00000f00
    ensures W(block, 42) == 0x3afb5079
    ensures W(block, 43) == 0x898e04e5
    ensures W(block, 44) == 0xe2ba3c2b
    ensures W(block, 45) == 0x000060c0
    ensures W(block, 46) == 0x053a37cd
    ensures W(block, 47) == 0x74458547
    ensures W(block, 48) == 0xda9415ed
    ensures W(block, 49) == 0x26380a16
  {
    hide W, Pad;
    Words30(block);
    Words20(block);
    Scheduled(block, 40, 0x626380a1, 0x8e9a9202, 0x00000000, 0x85898ec1, 0xd2e138c4);
    Scheduled(block, 41, 0x16263806, 0x00000600, 0x00000180, 0x16263806, 0x00000f00);
    Scheduled(block, 42, 0x000018c0, 0xb131c0f0, 0x2c4c700c, 0x00000000, 0x3afb5079);
    Scheduled(block, 43, 0xd2e138c4, 0x16263bc6, 0x000000f0, 0x00000180, 0x898e04e5);
    Scheduled(block, 44, 0x00000f00, 0x4ebed41e, 0x93afb507, 0x2c4c700c, 0xe2ba3c2b);
    Scheduled(block, 45, 0x3afb5079, 0x626380a1, 0x5898e048, 0x000000f0, 0x000060c0);
    Scheduled(block, 46, 0x898e04e5, 0x16263806, 0x8e9a9202, 0x93afb507, 0x053a37cd);
    Scheduled(block, 47, 0xe2ba3c2b, 0x000018c0, 0x00000600, 0x5898e048, 0x74458547);
    Scheduled(block, 48, 0x000060c0, 0xd2e138c4, 0xb131c0f0, 0x8e9a9202, 0xda9415ed);
    Scheduled(block, 49, 0x053a37cd, 0x00000f00, 0x16263bc6, 0x00000600, 0x26380a16);
  }

  lemma Words50(block: seq<bv8>)
    requires IsBlock(block)
    ensures W(block, 50) == 0x626383a1
    ensures W(block, 51) == 0x4ebf54de
    ensures W(block, 52) == 0x3835b44b
    ensures W(block, 53) == 0x0000f600
    ensures W(block, 54) == 0x1e84c7a3
    ensures W(block, 55) == 0x98e04d98
    ensures W(block, 56) == 0x651d16a0
    ensures W(block, 57) == 0x62658ca1
    ensures W(block, 58) == 0x458544d6
    ensures W(block, 59) == 0x44584cb7
  {
    hide W, Pad;
    Words40(block);
    Words30(block);
    Scheduled(block, 50, 0x74458547, 0x3afb5079, 0x4ebed41e, 0xb131c0f0, 0x626383a1);
    Scheduled(block, 51, 0xda9415ed, 0x898e04e5, 0x626380a1, 0x16263bc6, 0x4ebf54de);
    Scheduled(block, 52, 0x26380a16, 0xe2ba3c2b, 0x16263806, 0x4ebed41e, 0x3835b44b);
    Scheduled(block, 53, 0x626383a1, 0x000060c0, 0x000018c0, 0x626380a1, 0x0000f600);
    Scheduled(block, 54, 0x4ebf54de, 0x053a37cd, 0xd2e138c4, 0x16263806, 0x1e84c7a3);
    Scheduled(block, 55, 0x3835b44b, 0x74458547, 0x00000f00, 0x000018c0, 0x98e04d98);
    Scheduled(block, 56, 0x0000f600, 0xda9415ed, 0x3afb5079, 0xd2e138c4, 0x651d16a0);
    Scheduled(block, 57, 0x1e84c7a3, 0x26380a16, 0x898e04e5, 0x00000f00, 0x62658ca1);
    Scheduled(block, 58, 0x98e04d98, 0x626383a1, 0xe2ba3c2b, 0x3afb5079, 0x458544d6);
    Scheduled(block, 59, 0x651d16a0, 0x4ebf54de, 0x000060c0, 0x898e04e5, 0x44584cb7);
  }

  lemma Words60(block: seq<bv8>)
    requires IsBlock(block)
    ensures W(block, 60) == 0x7ba06619
    ensures W(block, 61) == 0x6380aea2
    ensures W(block, 62) == 0x0ae55269
    ensures W(block, 63) == 0x627b49a1
    ensures W(block, 64) == 0x7cd45c9d
    ensures W(block, 65) == 0x000f0000
    ensures W(block, 66) == 0xfb50753a
    ensures W(block, 67) == 0xec6765e8
    ensures W(block, 68) == 0xba3c2be2
    ensures W(block, 69) == 0x0060c000
  {
    hide W, Pad;
    Words50(block);
    Words40(block);
    Scheduled(block, 60, 0x62658ca1, 0x3835b44b, 0x053a37cd, 0xe2ba3c2b, 0x7ba06619);
    Scheduled(block, 61, 0x458544d6, 0x0000f600, 0x74458547, 0x000060c0, 0x6380aea2);
    Scheduled(block, 62, 0x44584cb7, 0x1e84c7a3, 0xda9415ed, 0x053a37cd, 0x0ae55269);
    Scheduled(block, 63, 0x7ba06619, 0x98e04d98, 0x26380a16, 0x74458547, 0x627b49a1);
    Scheduled(block, 64, 0x6380aea2, 0x651d16a0, 0x626383a1, 0xda9415ed, 0x7cd45c9d);
    Scheduled(block, 65, 0x0ae55269, 0x62658ca1, 0x4ebf54de, 0x26380a16, 0x000f0000);
    Scheduled(block, 66, 0x627b49a1, 0x458544d6, 0x3835b44b, 0x626383a1, 0xfb50753a);
    Scheduled(block, 67, 0x7cd45c9d, 0x44584cb7, 0x0000f600, 0x4ebf54de, 0xec6765e8);
    Scheduled(block, 68, 0x000f0000, 0x7ba06619, 0x1e84c7a3, 0x3835b44b, 0xba3c2be2);
    Scheduled(block, 69, 0xfb50753a, 0x6380aea2, 0x98e04d98, 0x0000f600, 0x0060c000);
  }

  lemma Words70(block: seq<bv8>)
    requires IsBlock(block)
    ensures W(block, 70) == 0x3a37cd05
    ensures W(block, 71) == 0x458546f4
    ensures W(block, 72) == 0xb8599dd6
    ensures W(block, 73) == 0x380a1a26
    ensures W(block, 74) == 0x01e02203
    ensures W(block, 75) == 0xe7cc3456
    ensures W(block, 76) == 0xe6e60b69
    ensures W(block, 77) == 0x00f60a00
    ensures W(block, 78) == 0x5795ef4f
    ensures W(block, 79) == 0x822e0879
  {
    hide W, Pad;
    Words60(block);
    Words50(block);
    Scheduled(block, 70, 0xec6765e8, 0x0ae55269, 0x651d16a0, 0x1e84c7a3, 0x3a37cd05);
    Scheduled(block, 71, 0xba3c2be2, 0x627b49a1, 0x62658ca1, 0x98e04d98, 0x458546f4);
    Scheduled(block, 72, 0x0060c000, 0x7cd45c9d, 0x458544d6, 0x651d16a0, 0xb8599dd6);
    Scheduled(block, 73, 0x3a37cd05, 0x000f0000, 0x44584cb7, 0x62658ca1, 0x380a1a26);
    Scheduled(block, 74, 0x458546f4, 0xfb50753a, 0x7ba06619, 0x458544d6, 0x01e02203);
    Scheduled(block, 75, 0xb8599dd6, 0xec6765e8, 0x6380aea2, 0x44584cb7, 0xe7cc3456);
    Scheduled(block, 76, 0x380a1a26, 0xba3c2be2, 0x0ae55269, 0x7ba06619, 0xe6e60b69);
    Scheduled(block, 77, 0x01e02203, 0x0060c000, 0x627b49a1, 0x6380aea2, 0x00f60a00);
    Scheduled(block, 78, 0xe7cc3456, 0x3a37cd05, 0x7cd45c9d, 0x0ae55269, 0x5795ef4f);
    Scheduled(block, 79, 0xe6e60b69, 0x458546f4, 0x000f0000, 0x627b49a1, 0x822e0879);
  }

  lemma Rounds10(block: seq<bv8>)
    requires IsBlock(block)
    ensures Rounds(H0, block, 10) == Regs(0x8351f929, 0x4b6ae328, 0x27a301f5, 0x664f8c30, 0x0ff1f290)
  {
    hide W, Rounds, Pad;
    NoRounds(block);
    Words0(block);
    Rounded(block, 0, Regs(0x67452301, 0xefcdab89, 0x98badcfe, 0x10325476, 0xc3d2e1f0), 0x61626380,
      0xe8a4602c, 0x98badcfe, 0x0116fc33, 0x7bf36ae2);
    Rounded(block, 1, Regs(0x0116fc33, 0x67452301, 0x7bf36ae2, 0x98badcfe, 0x10325476), 0x00000000,
      0x22df8660, 0xfbfbfefe, 0x8990536d, 0x59d148c0);
    Rounded(block, 2, Regs(0x8990536d, 0x0116fc33, 0x59d148c0, 0x7bf36ae2, 0x98badcfe), 0x00000000,
      0x320a6db1, 0x7bf14ac0, 0xa1390f08, 0xc045bf0c);
    Rounded(block, 3, Regs(0xa1390f08, 0x8990536d, 0xc045bf0c, 0x59d148c0, 0x7bf36ae2), 0x00000000,
      0x2721e114, 0xd0411b8c, 0xcdd8e11b, 0x626414db);
    Rounded(block, 4, Regs(0xcdd8e11b, 0xa1390f08, 0x626414db, 0xc045bf0c, 0x59d148c0), 0x00000000,
      0xbb1c2379, 0x6064b40c, 0xcfd499de, 0x284e43c2);
    Rounded(block, 5, Regs(0xcfd499de, 0xcdd8e11b, 0x284e43c2, 0x626414db, 0xc045bf0c), 0x00000000,
      0xfa933bd9, 0x2a6c55c2, 0x3fc7ca40, 0xf3763846);
    Rounded(block, 6, Regs(0x3fc7ca40, 0xcfd499de, 0xf3763846, 0x284e43c2, 0x626414db), 0x00000000,
      0xf8f94807, 0xe35e5a46, 0x993e30c1, 0xb3f52677);
    Rounded(block, 7, Regs(0x993e30c1, 0x3fc7ca40, 0xb3f52677, 0xf3763846, 0x284e43c2), 0x00000000,
      0x27c61833, 0xf3f53246, 0x9e8c07d4, 0x0ff1f290);
    Rounded(block, 8, Regs(0x9e8c07d4, 0x993e30c1, 0x0ff1f290, 0xb3f52677, 0xf3763846), 0x00000000,
      0xd180fa93, 0x2bf136b6, 0x4b6ae328, 0x664f8c30);
    Rounded(block, 9, Regs(0x4b6ae328, 0x9e8c07d4, 0x664f8c30, 0x0ff1f290, 0xb3f52677), 0x00000000,
      0x6d5c6509, 0x077df410, 0x8351f929, 0x27a301f5);
  }

  lemma Rounds20(block: seq<bv8>)
    requires IsBlock(block)
    ensures Rounds(H0, block, 20) == Regs(0xfd9e1d7d, 0xdc64901d, 0x20aa99ca, 0xd3a49608, 0xc82f758b)
  {
    hide W, Rounds, Pad;
    Rounds10(block);
    Words10(block);
    Rounded(block, 10, Regs(0x8351f929, 0x4b6ae328, 0x27a301f5, 0x664f8c30, 0x0ff1f290), 0x00000000,
      0x6a3f2530, 0x27270d30, 0xfbda9e89, 0x12dab8ca);
    Rounded(block, 11, Regs(0xfbda9e89, 0x8351f929, 0x12dab8ca, 0x27a301f5, 0x664f8c30), 0x00000000,
      0x7b53d13f, 0x26f2b8dc, 0x63188fe4, 0x60d47e4a);
    Rounded(block, 12, Regs(0x63188fe4, 0xfbda9e89, 0x60d47e4a, 0x12dab8ca, 0x27a301f5), 0x00000000,
      0x6311fc8c, 0x60d03e4a, 0x4607b664, 0x7ef6a7a2);
    Rounded(block, 13, Regs(0x4607b664, 0x63188fe4, 0x7ef6a7a2, 0x60d47e4a, 0x12dab8ca), 0x00000000,
      0xc0f6cc88, 0x62d4f7aa, 0x9128f695, 0x18c623f9);
    Rounded(block, 14, Regs(0x9128f695, 0x4607b664, 0x18c623f9, 0x7ef6a7a2, 0x60d47e4a), 0x00000000,
      0x251ed2b2, 0x38f623e2, 0x196bee77, 0x1181ed99);
    Rounded(block, 15, Regs(0x196bee77, 0x9128f695, 0x1181ed99, 0x18c623f9, 0x7ef6a7a2), 0x00000018,
      0x2d7dcee3, 0x19c6e5f9, 0x20bdd62f, 0x644a3da5);
    Rounded(block, 16, Regs(0x20bdd62f, 0x196bee77, 0x644a3da5, 0x1181ed99, 0x18c623f9), 0xc2c4c700,
      0x17bac5e4, 0x00ca2dad, 0x4e925823, 0xc65afb9d);
    Rounded(block, 17, Regs(0x4e925823, 0x20bdd62f, 0xc65afb9d, 0x644a3da5, 0x1181ed99), 0x00000000,
      0xd24b0469, 0x445afb8d, 0x82aa6728, 0xc82f758b);
    Rounded(block, 18, Regs(0x82aa6728, 0x4e925823, 0xc82f758b, 0xc65afb9d, 0x644a3da5), 0x00000030,
      0x554ce510, 0xc84af39f, 0xdc64901d, 0xd3a49608);
    Rounded(block, 19, Regs(0xdc64901d, 0x82aa6728, 0xd3a49608, 0xc82f758b, 0xc65afb9d), 0x85898e01,
      0x8c9203bb, 0xcaa5168b, 0xfd9e1d7d, 0x20aa99ca);
  }

  lemma Rounds30(block: seq<bv8>)
    requires IsBlock(block)
    ensures Rounds(H0, block, 30) == Regs(0xc5fbaf5d, 0x8370b52e, 0xd2aa1365, 0x6f8d7ef5, 0x12104ee9)
  {
    hide W, Rounds, Pad;
    Rounds20(block);
    Words20(block);
    Rounded(block, 20, Regs(0xfd9e1d7d, 0xdc64901d, 0x20aa99ca, 0xd3a49608, 0xc82f758b), 0x00000000,
      0xb3c3afbf, 0x2f6a9fdf, 0x1a37b0ca, 0x77192407);
    Rounded(block, 21, Regs(0x1a37b0ca, 0xfd9e1d7d, 0x77192407, 0x20aa99ca, 0xd3a49608), 0x00000060,
      0x46f61943, 0xaa2da0b0, 0x33a23bfc, 0x7f67875f);
    Rounded(block, 22, Regs(0x33a23bfc, 0x1a37b0ca, 0x7f67875f, 0x77192407, 0x20aa99ca), 0x0b131c03,
      0x74477f86, 0x12491392, 0x21283486, 0x868dec32);
    Rounded(block, 23, Regs(0x21283486, 0x33a23bfc, 0x868dec32, 0x7f67875f, 0x77192407), 0x00000030,
      0x250690c4, 0xca485091, 0xd541f12d, 0x0ce88eff);
    Rounded(block, 24, Regs(0xd541f12d, 0x21283486, 0x0ce88eff, 0x868dec32, 0x7f67875f), 0x85898ec1,
      0xa83e25ba, 0xab4d564b, 0xc7567dc6, 0x884a0d21);
    Rounded(block, 25, Regs(0xc7567dc6, 0xd541f12d, 0x884a0d21, 0x0ce88eff, 0x868dec32), 0x16263806,
      0xeacfb8d8, 0x51e372f3, 0x48413ba4, 0x75507c4b);
    Rounded(block, 26, Regs(0x48413ba4, 0xc7567dc6, 0x75507c4b, 0x884a0d21, 0x0ce88eff), 0x00000000,
      0x08277489, 0x3a4c0cac, 0xbe35fbd5, 0xb1d59f71);
    Rounded(block, 27, Regs(0xbe35fbd5, 0x48413ba4, 0xb1d59f71, 0x75507c4b, 0x884a0d21), 0x00000180,
      0xc6bf7ab7, 0x8cc4d89e, 0x4aa84d97, 0x12104ee9);
    Rounded(block, 28, Regs(0x4aa84d97, 0xbe35fbd5, 0x12104ee9, 0xb1d59f71, 0x75507c4b), 0x2c4c700c,
      0x5509b2e9, 0x1df02a4d, 0x8370b52e, 0x6f8d7ef5);
    Rounded(block, 29, Regs(0x8370b52e, 0x4aa84d97, 0x6f8d7ef5, 0x12104ee9, 0xb1d59f71), 0x000000f0,
      0x6e16a5d0, 0x37357d8b, 0xc5fbaf5d, 0xd2aa1365);
  }

  lemma Rounds40(block: seq<bv8>)
    requires IsBlock(block)
    ensures Rounds(H0, block, 40) == Regs(0x32de1cba, 0x4c986405, 0xf718e5cf, 0x03d447f6, 0xf72eec32)
  {
    hide W, Rounds, Pad;
    Rounds30(block);
    Words30(block);
    Rounded(block, 30, Regs(0xc5fbaf5d, 0x8370b52e, 0xd2aa1365, 0x6f8d7ef5, 0x12104ee9), 0x93afb507,
      0xbf75ebb8, 0x3e57d8be, 0x1267b407, 0xa0dc2d4b);
    Rounded(block, 31, Regs(0x1267b407, 0xc5fbaf5d, 0xa0dc2d4b, 0xd2aa1365, 0x6f8d7ef5), 0x5898e048,
      0x4cf680e2, 0xb78d9173, 0x3b845d33, 0x717eebd7);
    Rounded(block, 32, Regs(0x3b845d33, 0x1267b407, 0x717eebd7, 0xa0dc2d4b, 0xd2aa1365), 0x8e9a9202,
      0x708ba667, 0xc3c5729b, 0x046faa0a, 0xc499ed01);
    Rounded(block, 33, Regs(0x046faa0a, 0x3b845d33, 0xc499ed01, 0x717eebd7, 0xa0dc2d4b), 0x00000600,
      0x8df54140, 0x8e635be5, 0x2c0ebc11, 0xcee1174c);
    Rounded(block, 34, Regs(0x2c0ebc11, 0x046faa0a, 0xcee1174c, 0xc499ed01, 0x717eebd7), 0xb131c0f0,
      0x81d78225, 0x0e175047, 0x21796ad4, 0x811bea82);
    Rounded(block, 35, Regs(0x21796ad4, 0x2c0ebc11, 0x811bea82, 0xcee1174c, 0xc499ed01), 0x16263bc6,
      0x2f2d5a84, 0x63f441df, 0xdcbbb0cb, 0x4b03af04);
    Rounded(block, 36, Regs(0xdcbbb0cb, 0x21796ad4, 0x4b03af04, 0x811bea82, 0xcee1174c), 0x4ebed41e,
      0x9776197b, 0xeb612f52, 0x0f511fd8, 0x085e5ab5);
    Rounded(block, 37, Regs(0x0f511fd8, 0xdcbbb0cb, 0x085e5ab5, 0x4b03af04, 0x811bea82), 0x626380a1,
      0xea23fb01, 0x9fe6457a, 0xdc63973f, 0xf72eec32);
    Rounded(block, 38, Regs(0xdc63973f, 0x0f511fd8, 0xf72eec32, 0x085e5ab5, 0x4b03af04), 0x16263806,
      0x8c72e7fb, 0xf021a95f, 0x4c986405, 0x03d447f6);
    Rounded(block, 39, Regs(0x4c986405, 0xdc63973f, 0x03d447f6, 0xf72eec32, 0x085e5ab5), 0x000018c0,
      0x930c80a9, 0x28993cfb, 0x32de1cba, 0xf718e5cf);
  }

  lemma Rounds50(block: seq<bv8>)
    requires IsBlock(block)
    ensures Rounds(H0, block, 50) == Regs(0x120731c5, 0xbaf39337, 0xafab40b2, 0x2806e11b, 0x8714787c)
  {
    hide W, Rounds, Pad;
    Rounds40(block);
    Words40(block);
    Rounded(block, 40, Regs(0x32de1cba, 0x4c986405, 0xf718e5cf, 0x03d447f6, 0xf72eec32), 0xd2e138c4,
      0x5bc39746, 0x479865c7, 0xfc87dedf, 0x53261901);
    Rounded(block, 41, Regs(0xfc87dedf, 0x32de1cba, 0x53261901, 0xf718e5cf, 0x03d447f6), 0x00000f00,
      0x90fbdbff, 0x731e1d8b, 0x970a0d5c, 0x8cb7872e);
    Rounded(block, 42, Regs(0x970a0d5c, 0xfc87dedf, 0x8cb7872e, 0x53261901, 0xf718e5cf), 0x3afb5079,
      0xe141ab92, 0xdca79f0f, 0x7f193dc5, 0xff21f7b7);
    Rounded(block, 43, Regs(0x7f193dc5, 0x970a0d5c, 0xff21f7b7, 0x8cb7872e, 0x53261901), 0x898e04e5,
      0xe327b8af, 0x9f23873e, 0xee1b1aaf, 0x25c28357);
    Rounded(block, 44, Regs(0xee1b1aaf, 0x7f193dc5, 0x25c28357, 0xff21f7b7, 0x8cb7872e), 0xe2ba3c2b,
      0xc36355fd, 0x7f01b7d7, 0x40f28e09, 0x5fc64f71);
    Rounded(block, 45, Regs(0x40f28e09, 0xee1b1aaf, 0x5fc64f71, 0x25c28357, 0xff21f7b7), 0x000060c0,
      0x1e51c128, 0x6fc20b77, 0x1c51e1f2, 0xfb86c6ab);
    Rounded(block, 46, Regs(0x1c51e1f2, 0x40f28e09, 0xfb86c6ab, 0x5fc64f71, 0x25c28357), 0x053a37cd,
      0x8a3c3e43, 0x5bc6ce29, 0xa01b846c, 0x503ca382);
    Rounded(block, 47, Regs(0xa01b846c, 0x1c51e1f2, 0x503ca382, 0xfb86c6ab, 0x5fc64f71), 0x74458547,
      0x03708d94, 0x5814e3a2, 0xbead02ca, 0x8714787c);
    Rounded(block, 48, Regs(0xbead02ca, 0xa01b846c, 0x8714787c, 0x503ca382, 0xfb86c6ab), 0xda9415ed,
      0xd5a05957, 0x801ca06c, 0xbaf39337, 0x2806e11b);
    Rounded(block, 49, Regs(0xbaf39337, 0xbead02ca, 0x2806e11b, 0x8714787c, 0x503ca382), 0x26380a16,
      0x5e7266f7, 0xae04605a, 0x120731c5, 0xafab40b2);
  }

  lemma Rounds60(block: seq<bv8>)
    requires IsBlock(block)
    ensures Rounds(H0, block, 60) == Regs(0x3f52de5a, 0x09d785fd, 0x3498bfd4, 0xf211824f, 0xd79915ab)
  {
    hide W, Rounds, Pad;
    Rounds50(block);
    Words50(block);
    Rounded(block, 50, Regs(0x120731c5, 0xbaf39337, 0xafab40b2, 0x2806e11b, 0x8714787c), 0x626383a1,
      0x40e638a2, 0xaaa3c133, 0x641db2ce, 0xeebce4cd);
    Rounded(block, 51, Regs(0x641db2ce, 0x120731c5, 0xeebce4cd, 0xafab40b2, 0x2806e11b), 0x4ebf54de,
      0x83b659cc, 0xaeaf60c5, 0x3847ad66, 0x4481cc71);
    Rounded(block, 52, Regs(0x3847ad66, 0x641db2ce, 0x4481cc71, 0xeebce4cd, 0xafab40b2), 0x3835b44b,
      0x08f5acc7, 0x649de4cd, 0xe490436d, 0x99076cb3);
    Rounded(block, 53, Regs(0xe490436d, 0x3847ad66, 0x99076cb3, 0x4481cc71, 0xeebce4cd), 0x0000f600,
      0x92086dbc, 0x1807ec73, 0x27e9f1d8, 0x8e11eb59);
    Rounded(block, 54, Regs(0x27e9f1d8, 0xe490436d, 0x8e11eb59, 0x99076cb3, 0x4481cc71), 0x1e84c7a3,
      0xfd3e3b04, 0x8c116b79, 0x7b71f76d, 0x792410db);
    Rounded(block, 55, Regs(0x7b71f76d, 0x27e9f1d8, 0x792410db, 0x8e11eb59, 0x99076cb3), 0x98e04d98,
      0x6e3eedaf, 0x2f21f1d9, 0x5e6456af, 0x09fa7c76);
    Rounded(block, 56, Regs(0x5e6456af, 0x7b71f76d, 0x09fa7c76, 0x792410db, 0x8e11eb59), 0x651d16a0,
      0xcc8ad5eb, 0x7970747f, 0xc846093f, 0x5edc7ddb);
    Rounded(block, 57, Regs(0xc846093f, 0x5e6456af, 0x5edc7ddb, 0x09fa7c76, 0x792410db), 0x62658ca1,
      0x08c127f9, 0x5efc7cff, 0xd262ff50, 0xd79915ab);
    Rounded(block, 58, Regs(0xd262ff50, 0xc846093f, 0xd79915ab, 0x5edc7ddb, 0x09fa7c76), 0x458544d6,
      0x4c5fea1a, 0xdedc1dbb, 0x09d785fd, 0xf211824f);
    Rounded(block, 59, Regs(0x09d785fd, 0xd262ff50, 0xf211824f, 0xd79915ab, 0x5edc7ddb), 0x44584cb7,
      0x3af0bfa1, 0xd211974b, 0x3f52de5a, 0x3498bfd4);
  }

  lemma Rounds70(block: seq<bv8>)
    requires IsBlock(block)
    ensures Rounds(H0, block, 70) == Regs(0x3f2588c2, 0x497093c0, 0xde37534a, 0x030f7cad, 0x4405957e)
  {
    hide W, Rounds, Pad;
    Rounds60(block);
    Words60(block);
    Rounded(block, 60, Regs(0x3f52de5a, 0x09d785fd, 0x3498bfd4, 0xf211824f, 0xd79915ab), 0x7ba06619,
      0xea5bcb47, 0xcf5eb866, 0xd756c147, 0x4275e17f);
    Rounded(block, 61, Regs(0xd756c147, 0x3f52de5a, 0x4275e17f, 0x3498bfd4, 0xf211824f), 0x6380aea2,
      0xead828fa, 0x49bf80f1, 0x548c9cb2, 0x8fd4b796);
    Rounded(block, 62, Regs(0x548c9cb2, 0xd756c147, 0x8fd4b796, 0x4275e17f, 0x3498bfd4), 0x0ae55269,
      0x9193964a, 0x1af797ae, 0xb66c020b, 0xf5d5b051);
    Rounded(block, 63, Regs(0xb66c020b, 0x548c9cb2, 0xf5d5b051, 0x8fd4b796, 0x4275e17f), 0x627b49a1,
      0xcd804176, 0x2e8d9b75, 0x6b61c9e1, 0x9523272c);
    Rounded(block, 64, Regs(0x6b61c9e1, 0xb66c020b, 0x9523272c, 0xf5d5b051, 0x8fd4b796), 0x7cd45c9d,
      0x6c393c2d, 0xd69a9576, 0x19dfa7ac, 0xed9b0082);
    Rounded(block, 65, Regs(0x19dfa7ac, 0x6b61c9e1, 0xed9b0082, 0x9523272c, 0xf5d5b051), 0x000f0000,
      0x3bf4f583, 0x13d9ee4f, 0x101655f9, 0x5ad87278);
    Rounded(block, 66, Regs(0x101655f9, 0x19dfa7ac, 0x5ad87278, 0xed9b0082, 0x9523272c), 0xfb50753a,
      0x02cabf22, 0xae9cd556, 0x0c3df2b4, 0x0677e9eb);
    Rounded(block, 67, Regs(0x0c3df2b4, 0x101655f9, 0x0677e9eb, 0x5ad87278, 0xed9b0082), 0xec6765e8,
      0x87be5681, 0x4cb9ce6a, 0x78dd4d2b, 0x4405957e);
    Rounded(block, 68, Regs(0x78dd4d2b, 0x0c3df2b4, 0x4405957e, 0x0677e9eb, 0x5ad87278), 0xba3c2be2,
      0x1ba9a56f, 0x4e4f8e21, 0x497093c0, 0x030f7cad);
    Rounded(block, 69, Regs(0x497093c0, 0x78dd4d2b, 0x030f7cad, 0x4405957e, 0x0677e9eb), 0x0060c000,
      0x2e127809, 0x3fd7a4f8, 0x3f2588c2, 0xde37534a);
  }

  lemma Rounds80(block: seq<bv8>)
    requires IsBlock(block)
    ensures Rounds(H0, block, 80) == Regs(0x42541b35, 0x5738d5e1, 0x21834873, 0x681e6df6, 0xd8fdf6ad)
  {
    hide W, Rounds, Pad;
    Rounds70(block);
    Words70(block);
    Rounded(block, 70, Regs(0x3f2588c2, 0x497093c0, 0xde37534a, 0x030f7cad, 0x4405957e), 0x3a37cd05,
      0xe4b11847, 0x9448bc27, 0xc199f8c7, 0x125c24f0);
    Rounded(block, 71, Regs(0xc199f8c7, 0x3f2588c2, 0x125c24f0, 0xde37534a, 0x030f7cad), 0x458546f4,
      0x333f18f8, 0xf34eff78, 0x39859de7, 0x8fc96230);
    Rounded(block, 72, Regs(0x39859de7, 0xc199f8c7, 0x8fc96230, 0x125c24f0, 0xde37534a), 0xb8599dd6,
      0x30b3bce7, 0x5c0cbe07, 0xedb42de4, 0xf0667e31);
    Rounded(block, 73, Regs(0xedb42de4, 0x39859de7, 0xf0667e31, 0x8fc96230, 0x125c24f0), 0x380a1a26,
      0xb685bc9d, 0x462a81e6, 0x11793f6f, 0xce616779);
    Rounded(block, 74, Regs(0x11793f6f, 0xedb42de4, 0xce616779, 0xf0667e31, 0x8fc96230), 0x01e02203,
      0x2f27ede2, 0xd3b334ac, 0x5ee76897, 0x3b6d0b79);
    Rounded(block, 75, Regs(0x5ee76897, 0x11793f6f, 0x3b6d0b79, 0xce616779, 0xf0667e31), 0xe7cc3456,
      0xdced12eb, 0xe475536f, 0x63f7dab7, 0xc45e4fdb);
    Rounded(block, 76, Regs(0x63f7dab7, 0x5ee76897, 0xc45e4fdb, 0x3b6d0b79, 0xce616779), 0xe6e60b69,
      0x7efb56ec, 0xa1d42c35, 0xa079b7d9, 0xd7b9da25);
    Rounded(block, 77, Regs(0xa079b7d9, 0x63f7dab7, 0xd7b9da25, 0xc45e4fdb, 0x3b6d0b79), 0x00f60a00,
      0x0f36fb34, 0x70104f49, 0x860d21cc, 0xd8fdf6ad);
    Rounded(block, 78, Regs(0x860d21cc, 0xa079b7d9, 0xd8fdf6ad, 0xd7b9da25, 0xc45e4fdb), 0x5795ef4f,
      0xc1a43990, 0xaf3d9b51, 0x5738d5e1, 0x681e6df6);
    Rounded(block, 79, Regs(0x5738d5e1, 0x860d21cc, 0x681e6df6, 0xd8fdf6ad, 0xd7b9da25), 0x822e0879,
      0xe71abc2a, 0x36eeba97, 0x42541b35, 0x21834873);
  }

  lemma NoRounds(block: seq<bv8>)
    requires IsBlock(block)
    ensures Rounds(H0, block, 0) == Regs(0x67452301, 0xefcdab89, 0x98badcfe, 0x10325476, 0xc3d2e1f0)
  {
  }

  lemma Hashed(block: seq<bv8>)
    requires IsBlock(block)
    ensures Blocks(block) == Regs(0xa9993e36, 0x4706816a, 0xba3e2571, 0x7850c26c, 0x9cd0d89d)
  {
    hide Rounds, Pad;
    Rounds80(block);
    BlocksSnoc([], block);
    assert [] + block == block;
    assert Blocks([]) == H0;
  }

  /** The digest of "abc". */
  lemma Abc()
    ensures Sha1(MESSAGE) == [
      0xa9, 0x99, 0x3e, 0x36, 0x47, 0x06, 0x81, 0x6a, 0xba, 0x3e,
      0x25, 0x71, 0x78, 0x50, 0xc2, 0x6c, 0x9c, 0xd0, 0xd8, 0x9d
    ]
  {
    hide Blocks, Pad;
    OneBlock();
    Hashed(Pad(MESSAGE));
  }

  lemma OneBlock()
    ensures |Pad(MESSAGE)| == BLOCK
  {
    hide Zeros, Length64;
    ZerosLength(52);
    Lengths();
    assert (55 - 3) % 64 == 52;
  }
}
