/** The example of FIPS 180-4 for one block: the message "abc". */
module Sha1Example {
  import opened Sha1

  const MESSAGE: seq<Byte> := [0x61, 0x62, 0x63]

  /** The padded message. */
  const BLOCK: seq<Byte> := [0x61, 0x62, 0x63, 0x80] + Zeros(52) + (Zeros(7) + [24])

  lemma ZerosAt(k: nat, i: nat)
    requires i < k
    ensures Zeros(k)[i] == 0
  {
  }

  lemma BlockAt()
    ensures |BLOCK| == 64 && BLOCK[0] == 0x61 && BLOCK[1] == 0x62 && BLOCK[2] == 0x63 && BLOCK[3] == 0x80 && BLOCK[63] == 24
    ensures forall i :: 4 <= i < 63 ==> BLOCK[i] == 0
  {
    hide Zeros;
    forall i | 4 <= i < 63 ensures BLOCK[i] == 0 { if i < 56 { ZerosAt(52, i - 4); } else { ZerosAt(7, i - 56); } }
  }

  lemma WordsAre()
    ensures Word(0x61, 0x62, 0x63, 0x80) == 0x61626380 && Word(0, 0, 0, 24) == 0x00000018 && Word(0, 0, 0, 0) == 0
  {
  }

  lemma First()
    ensures |BLOCK| == 64 && Schedule(BLOCK, 0) == 0x61626380 && Schedule(BLOCK, 15) == 0x00000018
    ensures forall t :: 0 < t < 15 ==> Schedule(BLOCK, t) == 0
  {
    hide Word, Zeros;
    BlockAt();
    WordsAre();
  }

  lemma Words16()
    ensures |BLOCK| == 64
    ensures Schedule(BLOCK, 16) == 0xc2c4c700
    ensures Schedule(BLOCK, 17) == 0x00000000
    ensures Schedule(BLOCK, 18) == 0x00000030
    ensures Schedule(BLOCK, 19) == 0x85898e01
    ensures Schedule(BLOCK, 20) == 0x00000000
    ensures Schedule(BLOCK, 21) == 0x00000060
    ensures Schedule(BLOCK, 22) == 0x0b131c03
    ensures Schedule(BLOCK, 23) == 0x00000030
  {
    First();
  }

  lemma Words24()
    ensures |BLOCK| == 64
    ensures Schedule(BLOCK, 24) == 0x85898ec1
    ensures Schedule(BLOCK, 25) == 0x16263806
    ensures Schedule(BLOCK, 26) == 0x00000000
    ensures Schedule(BLOCK, 27) == 0x00000180
    ensures Schedule(BLOCK, 28) == 0x2c4c700c
    ensures Schedule(BLOCK, 29) == 0x000000f0
    ensures Schedule(BLOCK, 30) == 0x93afb507
    ensures Schedule(BLOCK, 31) == 0x5898e048
  {
    First();
    Words16();
  }

  lemma Words32()
    ensures |BLOCK| == 64
    ensures Schedule(BLOCK, 32) == 0x8e9a9202
    ensures Schedule(BLOCK, 33) == 0x00000600
    ensures Schedule(BLOCK, 34) == 0xb131c0f0
    ensures Schedule(BLOCK, 35) == 0x16263bc6
    ensures Schedule(BLOCK, 36) == 0x4ebed41e
    ensures Schedule(BLOCK, 37) == 0x626380a1
    ensures Schedule(BLOCK, 38) == 0x16263806
    ensures Schedule(BLOCK, 39) == 0x000018c0
  {
    Words16();
    Words24();
  }

  lemma Words40()
    ensures |BLOCK| == 64
    ensures Schedule(BLOCK, 40) == 0xd2e138c4
    ensures Schedule(BLOCK, 41) == 0x00000f00
    ensures Schedule(BLOCK, 42) == 0x3afb5079
    ensures Schedule(BLOCK, 43) == 0x898e04e5
    ensures Schedule(BLOCK, 44) == 0xe2ba3c2b
    ensures Schedule(BLOCK, 45) == 0x000060c0
    ensures Schedule(BLOCK, 46) == 0x053a37cd
    ensures Schedule(BLOCK, 47) == 0x74458547
  {
    Words24();
    Words32();
  }

  lemma Words48()
    ensures |BLOCK| == 64
    ensures Schedule(BLOCK, 48) == 0xda9415ed
    ensures Schedule(BLOCK, 49) == 0x26380a16
    ensures Schedule(BLOCK, 50) == 0x626383a1
    ensures Schedule(BLOCK, 51) == 0x4ebf54de
    ensures Schedule(BLOCK, 52) == 0x3835b44b
    ensures Schedule(BLOCK, 53) == 0x0000f600
    ensures Schedule(BLOCK, 54) == 0x1e84c7a3
    ensures Schedule(BLOCK, 55) == 0x98e04d98
  {
    Words32();
    Words40();
  }

  lemma Words56()
    ensures |BLOCK| == 64
    ensures Schedule(BLOCK, 56) == 0x651d16a0
    ensures Schedule(BLOCK, 57) == 0x62658ca1
    ensures Schedule(BLOCK, 58) == 0x458544d6
    ensures Schedule(BLOCK, 59) == 0x44584cb7
    ensures Schedule(BLOCK, 60) == 0x7ba06619
    ensures Schedule(BLOCK, 61) == 0x6380aea2
    ensures Schedule(BLOCK, 62) == 0x0ae55269
    ensures Schedule(BLOCK, 63) == 0x627b49a1
  {
    Words40();
    Words48();
  }

  lemma Words64()
    ensures |BLOCK| == 64
    ensures Schedule(BLOCK, 64) == 0x7cd45c9d
    ensures Schedule(BLOCK, 65) == 0x000f0000
    ensures Schedule(BLOCK, 66) == 0xfb50753a
    ensures Schedule(BLOCK, 67) == 0xec6765e8
    ensures Schedule(BLOCK, 68) == 0xba3c2be2
    ensures Schedule(BLOCK, 69) == 0x0060c000
    ensures Schedule(BLOCK, 70) == 0x3a37cd05
    ensures Schedule(BLOCK, 71) == 0x458546f4
  {
    Words48();
    Words56();
  }

  lemma Words72()
    ensures |BLOCK| == 64
    ensures Schedule(BLOCK, 72) == 0xb8599dd6
    ensures Schedule(BLOCK, 73) == 0x380a1a26
    ensures Schedule(BLOCK, 74) == 0x01e02203
    ensures Schedule(BLOCK, 75) == 0xe7cc3456
    ensures Schedule(BLOCK, 76) == 0xe6e60b69
    ensures Schedule(BLOCK, 77) == 0x00f60a00
    ensures Schedule(BLOCK, 78) == 0x5795ef4f
    ensures Schedule(BLOCK, 79) == 0x822e0879
  {
    Words56();
    Words64();
  }

  lemma Rounds8()
    ensures |BLOCK| == 64 && Rounds(BLOCK, START, 8) == Hash(0x9e8c07d4, 0x993e30c1, 0x0ff1f290, 0xb3f52677, 0xf3763846)
  {
    hide Schedule;
    First();
    assert Rounds(BLOCK, START, 1) == Hash(0x0116fc33, 0x67452301, 0x7bf36ae2, 0x98badcfe, 0x10325476);
    assert Rounds(BLOCK, START, 2) == Hash(0x8990536d, 0x0116fc33, 0x59d148c0, 0x7bf36ae2, 0x98badcfe);
    assert Rounds(BLOCK, START, 3) == Hash(0xa1390f08, 0x8990536d, 0xc045bf0c, 0x59d148c0, 0x7bf36ae2);
    assert Rounds(BLOCK, START, 4) == Hash(0xcdd8e11b, 0xa1390f08, 0x626414db, 0xc045bf0c, 0x59d148c0);
    assert Rounds(BLOCK, START, 5) == Hash(0xcfd499de, 0xcdd8e11b, 0x284e43c2, 0x626414db, 0xc045bf0c);
    assert Rounds(BLOCK, START, 6) == Hash(0x3fc7ca40, 0xcfd499de, 0xf3763846, 0x284e43c2, 0x626414db);
    assert Rounds(BLOCK, START, 7) == Hash(0x993e30c1, 0x3fc7ca40, 0xb3f52677, 0xf3763846, 0x284e43c2);
  }

  lemma Rounds16()
    ensures |BLOCK| == 64 && Rounds(BLOCK, START, 16) == Hash(0x20bdd62f, 0x196bee77, 0x644a3da5, 0x1181ed99, 0x18c623f9)
  {
    hide Schedule;
    First();
    Rounds8();
    assert Rounds(BLOCK, START, 9) == Hash(0x4b6ae328, 0x9e8c07d4, 0x664f8c30, 0x0ff1f290, 0xb3f52677);
    assert Rounds(BLOCK, START, 10) == Hash(0x8351f929, 0x4b6ae328, 0x27a301f5, 0x664f8c30, 0x0ff1f290);
    assert Rounds(BLOCK, START, 11) == Hash(0xfbda9e89, 0x8351f929, 0x12dab8ca, 0x27a301f5, 0x664f8c30);
    assert Rounds(BLOCK, START, 12) == Hash(0x63188fe4, 0xfbda9e89, 0x60d47e4a, 0x12dab8ca, 0x27a301f5);
    assert Rounds(BLOCK, START, 13) == Hash(0x4607b664, 0x63188fe4, 0x7ef6a7a2, 0x60d47e4a, 0x12dab8ca);
    assert Rounds(BLOCK, START, 14) == Hash(0x9128f695, 0x4607b664, 0x18c623f9, 0x7ef6a7a2, 0x60d47e4a);
    assert Rounds(BLOCK, START, 15) == Hash(0x196bee77, 0x9128f695, 0x1181ed99, 0x18c623f9, 0x7ef6a7a2);
  }

  lemma Rounds24()
    ensures |BLOCK| == 64 && Rounds(BLOCK, START, 24) == Hash(0xd541f12d, 0x21283486, 0x0ce88eff, 0x868dec32, 0x7f67875f)
  {
    hide Schedule;
    Words16();
    Rounds16();
    assert Rounds(BLOCK, START, 17) == Hash(0x4e925823, 0x20bdd62f, 0xc65afb9d, 0x644a3da5, 0x1181ed99);
    assert Rounds(BLOCK, START, 18) == Hash(0x82aa6728, 0x4e925823, 0xc82f758b, 0xc65afb9d, 0x644a3da5);
    assert Rounds(BLOCK, START, 19) == Hash(0xdc64901d, 0x82aa6728, 0xd3a49608, 0xc82f758b, 0xc65afb9d);
    assert Rounds(BLOCK, START, 20) == Hash(0xfd9e1d7d, 0xdc64901d, 0x20aa99ca, 0xd3a49608, 0xc82f758b);
    assert Rounds(BLOCK, START, 21) == Hash(0x1a37b0ca, 0xfd9e1d7d, 0x77192407, 0x20aa99ca, 0xd3a49608);
    assert Rounds(BLOCK, START, 22) == Hash(0x33a23bfc, 0x1a37b0ca, 0x7f67875f, 0x77192407, 0x20aa99ca);
    assert Rounds(BLOCK, START, 23) == Hash(0x21283486, 0x33a23bfc, 0x868dec32, 0x7f67875f, 0x77192407);
  }

  lemma Rounds32()
    ensures |BLOCK| == 64 && Rounds(BLOCK, START, 32) == Hash(0x3b845d33, 0x1267b407, 0x717eebd7, 0xa0dc2d4b, 0xd2aa1365)
  {
    hide Schedule;
    Words24();
    Rounds24();
    assert Rounds(BLOCK, START, 25) == Hash(0xc7567dc6, 0xd541f12d, 0x884a0d21, 0x0ce88eff, 0x868dec32);
    assert Rounds(BLOCK, START, 26) == Hash(0x48413ba4, 0xc7567dc6, 0x75507c4b, 0x884a0d21, 0x0ce88eff);
    assert Rounds(BLOCK, START, 27) == Hash(0xbe35fbd5, 0x48413ba4, 0xb1d59f71, 0x75507c4b, 0x884a0d21);
    assert Rounds(BLOCK, START, 28) == Hash(0x4aa84d97, 0xbe35fbd5, 0x12104ee9, 0xb1d59f71, 0x75507c4b);
    assert Rounds(BLOCK, START, 29) == Hash(0x8370b52e, 0x4aa84d97, 0x6f8d7ef5, 0x12104ee9, 0xb1d59f71);
    assert Rounds(BLOCK, START, 30) == Hash(0xc5fbaf5d, 0x8370b52e, 0xd2aa1365, 0x6f8d7ef5, 0x12104ee9);
    assert Rounds(BLOCK, START, 31) == Hash(0x1267b407, 0xc5fbaf5d, 0xa0dc2d4b, 0xd2aa1365, 0x6f8d7ef5);
  }

  lemma Rounds40()
    ensures |BLOCK| == 64 && Rounds(BLOCK, START, 40) == Hash(0x32de1cba, 0x4c986405, 0xf718e5cf, 0x03d447f6, 0xf72eec32)
  {
    hide Schedule;
    Words32();
    Rounds32();
    assert Rounds(BLOCK, START, 33) == Hash(0x046faa0a, 0x3b845d33, 0xc499ed01, 0x717eebd7, 0xa0dc2d4b);
    assert Rounds(BLOCK, START, 34) == Hash(0x2c0ebc11, 0x046faa0a, 0xcee1174c, 0xc499ed01, 0x717eebd7);
    assert Rounds(BLOCK, START, 35) == Hash(0x21796ad4, 0x2c0ebc11, 0x811bea82, 0xcee1174c, 0xc499ed01);
    assert Rounds(BLOCK, START, 36) == Hash(0xdcbbb0cb, 0x21796ad4, 0x4b03af04, 0x811bea82, 0xcee1174c);
    assert Rounds(BLOCK, START, 37) == Hash(0x0f511fd8, 0xdcbbb0cb, 0x085e5ab5, 0x4b03af04, 0x811bea82);
    assert Rounds(BLOCK, START, 38) == Hash(0xdc63973f, 0x0f511fd8, 0xf72eec32, 0x085e5ab5, 0x4b03af04);
    assert Rounds(BLOCK, START, 39) == Hash(0x4c986405, 0xdc63973f, 0x03d447f6, 0xf72eec32, 0x085e5ab5);
  }

  lemma Rounds48()
    ensures |BLOCK| == 64 && Rounds(BLOCK, START, 48) == Hash(0xbead02ca, 0xa01b846c, 0x8714787c, 0x503ca382, 0xfb86c6ab)
  {
    hide Schedule;
    Words40();
    Rounds40();
    assert Rounds(BLOCK, START, 41) == Hash(0xfc87dedf, 0x32de1cba, 0x53261901, 0xf718e5cf, 0x03d447f6);
    assert Rounds(BLOCK, START, 42) == Hash(0x970a0d5c, 0xfc87dedf, 0x8cb7872e, 0x53261901, 0xf718e5cf);
    assert Rounds(BLOCK, START, 43) == Hash(0x7f193dc5, 0x970a0d5c, 0xff21f7b7, 0x8cb7872e, 0x53261901);
    assert Rounds(BLOCK, START, 44) == Hash(0xee1b1aaf, 0x7f193dc5, 0x25c28357, 0xff21f7b7, 0x8cb7872e);
    assert Rounds(BLOCK, START, 45) == Hash(0x40f28e09, 0xee1b1aaf, 0x5fc64f71, 0x25c28357, 0xff21f7b7);
    assert Rounds(BLOCK, START, 46) == Hash(0x1c51e1f2, 0x40f28e09, 0xfb86c6ab, 0x5fc64f71, 0x25c28357);
    assert Rounds(BLOCK, START, 47) == Hash(0xa01b846c, 0x1c51e1f2, 0x503ca382, 0xfb86c6ab, 0x5fc64f71);
  }

  lemma Rounds56()
    ensures |BLOCK| == 64 && Rounds(BLOCK, START, 56) == Hash(0x5e6456af, 0x7b71f76d, 0x09fa7c76, 0x792410db, 0x8e11eb59)
  {
    hide Schedule;
    Words48();
    Rounds48();
    assert Rounds(BLOCK, START, 49) == Hash(0xbaf39337, 0xbead02ca, 0x2806e11b, 0x8714787c, 0x503ca382);
    assert Rounds(BLOCK, START, 50) == Hash(0x120731c5, 0xbaf39337, 0xafab40b2, 0x2806e11b, 0x8714787c);
    assert Rounds(BLOCK, START, 51) == Hash(0x641db2ce, 0x120731c5, 0xeebce4cd, 0xafab40b2, 0x2806e11b);
    assert Rounds(BLOCK, START, 52) == Hash(0x3847ad66, 0x641db2ce, 0x4481cc71, 0xeebce4cd, 0xafab40b2);
    assert Rounds(BLOCK, START, 53) == Hash(0xe490436d, 0x3847ad66, 0x99076cb3, 0x4481cc71, 0xeebce4cd);
    assert Rounds(BLOCK, START, 54) == Hash(0x27e9f1d8, 0xe490436d, 0x8e11eb59, 0x99076cb3, 0x4481cc71);
    assert Rounds(BLOCK, START, 55) == Hash(0x7b71f76d, 0x27e9f1d8, 0x792410db, 0x8e11eb59, 0x99076cb3);
  }

  lemma Rounds64()
    ensures |BLOCK| == 64 && Rounds(BLOCK, START, 64) == Hash(0x6b61c9e1, 0xb66c020b, 0x9523272c, 0xf5d5b051, 0x8fd4b796)
  {
    hide Schedule;
    Words56();
    Rounds56();
    assert Rounds(BLOCK, START, 57) == Hash(0xc846093f, 0x5e6456af, 0x5edc7ddb, 0x09fa7c76, 0x792410db);
    assert Rounds(BLOCK, START, 58) == Hash(0xd262ff50, 0xc846093f, 0xd79915ab, 0x5edc7ddb, 0x09fa7c76);
    assert Rounds(BLOCK, START, 59) == Hash(0x09d785fd, 0xd262ff50, 0xf211824f, 0xd79915ab, 0x5edc7ddb);
    assert Rounds(BLOCK, START, 60) == Hash(0x3f52de5a, 0x09d785fd, 0x3498bfd4, 0xf211824f, 0xd79915ab);
    assert Rounds(BLOCK, START, 61) == Hash(0xd756c147, 0x3f52de5a, 0x4275e17f, 0x3498bfd4, 0xf211824f);
    assert Rounds(BLOCK, START, 62) == Hash(0x548c9cb2, 0xd756c147, 0x8fd4b796, 0x4275e17f, 0x3498bfd4);
    assert Rounds(BLOCK, START, 63) == Hash(0xb66c020b, 0x548c9cb2, 0xf5d5b051, 0x8fd4b796, 0x4275e17f);
  }

  lemma Rounds72()
    ensures |BLOCK| == 64 && Rounds(BLOCK, START, 72) == Hash(0x39859de7, 0xc199f8c7, 0x8fc96230, 0x125c24f0, 0xde37534a)
  {
    hide Schedule;
    Words64();
    Rounds64();
    assert Rounds(BLOCK, START, 65) == Hash(0x19dfa7ac, 0x6b61c9e1, 0xed9b0082, 0x9523272c, 0xf5d5b051);
    assert Rounds(BLOCK, START, 66) == Hash(0x101655f9, 0x19dfa7ac, 0x5ad87278, 0xed9b0082, 0x9523272c);
    assert Rounds(BLOCK, START, 67) == Hash(0x0c3df2b4, 0x101655f9, 0x0677e9eb, 0x5ad87278, 0xed9b0082);
    assert Rounds(BLOCK, START, 68) == Hash(0x78dd4d2b, 0x0c3df2b4, 0x4405957e, 0x0677e9eb, 0x5ad87278);
    assert Rounds(BLOCK, START, 69) == Hash(0x497093c0, 0x78dd4d2b, 0x030f7cad, 0x4405957e, 0x0677e9eb);
    assert Rounds(BLOCK, START, 70) == Hash(0x3f2588c2, 0x497093c0, 0xde37534a, 0x030f7cad, 0x4405957e);
    assert Rounds(BLOCK, START, 71) == Hash(0xc199f8c7, 0x3f2588c2, 0x125c24f0, 0xde37534a, 0x030f7cad);
  }

  lemma Rounds80()
    ensures |BLOCK| == 64 && Rounds(BLOCK, START, 80) == Hash(0x42541b35, 0x5738d5e1, 0x21834873, 0x681e6df6, 0xd8fdf6ad)
  {
    hide Schedule;
    Words72();
    Rounds72();
    assert Rounds(BLOCK, START, 73) == Hash(0xedb42de4, 0x39859de7, 0xf0667e31, 0x8fc96230, 0x125c24f0);
    assert Rounds(BLOCK, START, 74) == Hash(0x11793f6f, 0xedb42de4, 0xce616779, 0xf0667e31, 0x8fc96230);
    assert Rounds(BLOCK, START, 75) == Hash(0x5ee76897, 0x11793f6f, 0x3b6d0b79, 0xce616779, 0xf0667e31);
    assert Rounds(BLOCK, START, 76) == Hash(0x63f7dab7, 0x5ee76897, 0xc45e4fdb, 0x3b6d0b79, 0xce616779);
    assert Rounds(BLOCK, START, 77) == Hash(0xa079b7d9, 0x63f7dab7, 0xd7b9da25, 0xc45e4fdb, 0x3b6d0b79);
    assert Rounds(BLOCK, START, 78) == Hash(0x860d21cc, 0xa079b7d9, 0xd8fdf6ad, 0xd7b9da25, 0xc45e4fdb);
    assert Rounds(BLOCK, START, 79) == Hash(0x5738d5e1, 0x860d21cc, 0x681e6df6, 0xd8fdf6ad, 0xd7b9da25);
  }

  lemma PaddedAbc()
    ensures Padded(MESSAGE) == BLOCK
  {
    hide Zeros, Value, Padded, BigEndian;
    LengthAbc();
    assert BLOCK == MESSAGE + [0x80] + Zeros(52) + (Zeros(7) + [24]);
    assert |BLOCK| % 64 == 0;
    assert PaddingBy(MESSAGE, BLOCK, 52, Zeros(7) + [24]);
    OnePadding(MESSAGE, BLOCK);
  }

  lemma LengthAbc()
    ensures Value(Zeros(7) + [24]) == 24
  {
    hide Zeros;
    var length: seq<Byte> := Zeros(7) + [24];
    assert length[..7] == Zeros(7);
    NoValue(7);
  }

  lemma {:induction false} NoValue(k: nat)
    ensures Value(Zeros(k)) == 0
  {
    if k > 0 {
      NoValue(k - 1);
      assert Zeros(k)[..k - 1] == Zeros(k - 1);
    }
  }

  /** The digest the standard prints for it. */
  lemma Abc()
    ensures Sha1Of(MESSAGE) == [0xa9, 0x99, 0x3e, 0x36, 0x47, 0x06, 0x81, 0x6a, 0xba, 0x3e, 0x25, 0x71, 0x78, 0x50, 0xc2, 0x6c, 0x9c, 0xd0, 0xd8, 0x9d]
  {
    hide Rounds, Padded, WordBytes, Fold, Zeros;
    Bytes();
    PaddedAbc();
    Rounds80();
    OneBlock(BLOCK);
  }

  lemma OneBlock(m: seq<Byte>)
    requires |m| == 64
    ensures Fold(m) == Compress(START, m)
  {
    hide Compress;
    assert m[..0] == [] && m[0..] == m;
    assert Fold([]) == START;
  }

  lemma Bytes()
    ensures WordBytes(0xa9993e36) == [0xa9, 0x99, 0x3e, 0x36]
    ensures WordBytes(0x4706816a) == [0x47, 0x06, 0x81, 0x6a]
    ensures WordBytes(0xba3e2571) == [0xba, 0x3e, 0x25, 0x71]
    ensures WordBytes(0x7850c26c) == [0x78, 0x50, 0xc2, 0x6c]
    ensures WordBytes(0x9cd0d89d) == [0x9c, 0xd0, 0xd8, 0x9d]
  {
  }
}
