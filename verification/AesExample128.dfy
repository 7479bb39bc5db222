/** The AES-128 example of FIPS 197, appendix C.1, computed with the tables of aes.c: the key schedule and the cipher
    round by round. */
module AesExample128 {
  import opened AesField
  import opened AesCipher
  import opened AesCode
  import opened AesKeys
  import opened AesTables
  import opened AesTrace

  const OUTPUT: seq<bv8> := [0x69, 0xc4, 0xe0, 0xd8, 0x6a, 0x7b, 0x04, 0x30,
                             0xd8, 0xcd, 0xb7, 0x80, 0x70, 0xb4, 0xc5, 0x5a]

  /** The key 00 01 02 ..., and a schedule of it. */
  ghost predicate Given(key: seq<bv32>, rk: seq<bv32>) {
    && |key| == 4 && IsSchedule(AES, key, rk)
    && key[0] == 0x00010203 && key[1] == 0x04050607 && key[2] == 0x08090a0b && key[3] == 0x0c0d0e0f
  }

  // ---------------------------------------------------------------- the schedule

  lemma Key0(key: seq<bv32>, rk: seq<bv32>)
    requires Given(key, rk)
    ensures RoundKey(rk, 0) == Block(0x00010203, 0x04050607, 0x08090a0b, 0x0c0d0e0f)
  {
    GivenWords(AES, key, rk);
  }

  lemma Sub4()
    ensures SubWord(AES.s, RotWord(0x0c0d0e0f)) == 0xd7ab76fe
  {
  }

  lemma Key1(key: seq<bv32>, rk: seq<bv32>)
    requires Given(key, rk)
    ensures RoundKey(rk, 1) == Block(0xd6aa74fd, 0xd2af72fa, 0xdaa678f1, 0xd6ab76fe)
  {
    Key0(key, rk);
    Sub4();
    AesHead(key, rk, 4, 4, 1, 0x01000000);
    LaterWord(AES, key, rk, 4, 5, 1);
    LaterWord(AES, key, rk, 4, 6, 2);
    LaterWord(AES, key, rk, 4, 7, 3);
  }

  lemma Sub8()
    ensures SubWord(AES.s, RotWord(0xd6ab76fe)) == 0x6238bbf6
  {
  }

  lemma Key2(key: seq<bv32>, rk: seq<bv32>)
    requires Given(key, rk)
    ensures RoundKey(rk, 2) == Block(0xb692cf0b, 0x643dbdf1, 0xbe9bc500, 0x6830b3fe)
  {
    Key1(key, rk);
    Sub8();
    AesHead(key, rk, 4, 8, 2, 0x02000000);
    LaterWord(AES, key, rk, 4, 9, 1);
    LaterWord(AES, key, rk, 4, 10, 2);
    LaterWord(AES, key, rk, 4, 11, 3);
  }

  lemma Sub12()
    ensures SubWord(AES.s, RotWord(0x6830b3fe)) == 0x046dbb45
  {
  }

  lemma Key3(key: seq<bv32>, rk: seq<bv32>)
    requires Given(key, rk)
    ensures RoundKey(rk, 3) == Block(0xb6ff744e, 0xd2c2c9bf, 0x6c590cbf, 0x0469bf41)
  {
    Key2(key, rk);
    Sub12();
    AesHead(key, rk, 4, 12, 3, 0x04000000);
    LaterWord(AES, key, rk, 4, 13, 1);
    LaterWord(AES, key, rk, 4, 14, 2);
    LaterWord(AES, key, rk, 4, 15, 3);
  }

  lemma Sub16()
    ensures SubWord(AES.s, RotWord(0x0469bf41)) == 0xf90883f2
  {
  }

  lemma Key4(key: seq<bv32>, rk: seq<bv32>)
    requires Given(key, rk)
    ensures RoundKey(rk, 4) == Block(0x47f7f7bc, 0x95353e03, 0xf96c32bc, 0xfd058dfd)
  {
    Key3(key, rk);
    Sub16();
    AesHead(key, rk, 4, 16, 4, 0x08000000);
    LaterWord(AES, key, rk, 4, 17, 1);
    LaterWord(AES, key, rk, 4, 18, 2);
    LaterWord(AES, key, rk, 4, 19, 3);
  }

  lemma Sub20()
    ensures SubWord(AES.s, RotWord(0xfd058dfd)) == 0x6b5d5454
  {
  }

  lemma Key5(key: seq<bv32>, rk: seq<bv32>)
    requires Given(key, rk)
    ensures RoundKey(rk, 5) == Block(0x3caaa3e8, 0xa99f9deb, 0x50f3af57, 0xadf622aa)
  {
    Key4(key, rk);
    Sub20();
    AesHead(key, rk, 4, 20, 5, 0x10000000);
    LaterWord(AES, key, rk, 4, 21, 1);
    LaterWord(AES, key, rk, 4, 22, 2);
    LaterWord(AES, key, rk, 4, 23, 3);
  }

  lemma Sub24()
    ensures SubWord(AES.s, RotWord(0xadf622aa)) == 0x4293ac95
  {
  }

  lemma Key6(key: seq<bv32>, rk: seq<bv32>)
    requires Given(key, rk)
    ensures RoundKey(rk, 6) == Block(0x5e390f7d, 0xf7a69296, 0xa7553dc1, 0x0aa31f6b)
  {
    Key5(key, rk);
    Sub24();
    AesHead(key, rk, 4, 24, 6, 0x20000000);
    LaterWord(AES, key, rk, 4, 25, 1);
    LaterWord(AES, key, rk, 4, 26, 2);
    LaterWord(AES, key, rk, 4, 27, 3);
  }

  lemma Sub28()
    ensures SubWord(AES.s, RotWord(0x0aa31f6b)) == 0x0ac07f67
  {
  }

  lemma Key7(key: seq<bv32>, rk: seq<bv32>)
    requires Given(key, rk)
    ensures RoundKey(rk, 7) == Block(0x14f9701a, 0xe35fe28c, 0x440adf4d, 0x4ea9c026)
  {
    Key6(key, rk);
    Sub28();
    AesHead(key, rk, 4, 28, 7, 0x40000000);
    LaterWord(AES, key, rk, 4, 29, 1);
    LaterWord(AES, key, rk, 4, 30, 2);
    LaterWord(AES, key, rk, 4, 31, 3);
  }

  lemma Sub32()
    ensures SubWord(AES.s, RotWord(0x4ea9c026)) == 0xd3baf72f
  {
  }

  lemma Key8(key: seq<bv32>, rk: seq<bv32>)
    requires Given(key, rk)
    ensures RoundKey(rk, 8) == Block(0x47438735, 0xa41c65b9, 0xe016baf4, 0xaebf7ad2)
  {
    Key7(key, rk);
    Sub32();
    AesHead(key, rk, 4, 32, 8, 0x80000000);
    LaterWord(AES, key, rk, 4, 33, 1);
    LaterWord(AES, key, rk, 4, 34, 2);
    LaterWord(AES, key, rk, 4, 35, 3);
  }

  lemma Sub36()
    ensures SubWord(AES.s, RotWord(0xaebf7ad2)) == 0x08dab5e4
  {
  }

  lemma Key9(key: seq<bv32>, rk: seq<bv32>)
    requires Given(key, rk)
    ensures RoundKey(rk, 9) == Block(0x549932d1, 0xf0855768, 0x1093ed9c, 0xbe2c974e)
  {
    Key8(key, rk);
    Sub36();
    AesHead(key, rk, 4, 36, 9, 0x1b000000);
    LaterWord(AES, key, rk, 4, 37, 1);
    LaterWord(AES, key, rk, 4, 38, 2);
    LaterWord(AES, key, rk, 4, 39, 3);
  }

  lemma Sub40()
    ensures SubWord(AES.s, RotWord(0xbe2c974e)) == 0x71882fae
  {
  }

  lemma Key10(key: seq<bv32>, rk: seq<bv32>)
    requires Given(key, rk)
    ensures RoundKey(rk, 10) == Block(0x13111d7f, 0xe3944a17, 0xf307a78b, 0x4d2b30c5)
  {
    Key9(key, rk);
    Sub40();
    AesHead(key, rk, 4, 40, 10, 0x36000000);
    LaterWord(AES, key, rk, 4, 41, 1);
    LaterWord(AES, key, rk, 4, 42, 2);
    LaterWord(AES, key, rk, 4, 43, 3);
  }

  // ---------------------------------------------------------------- SubBytes and ShiftRows

  lemma Shift0()
    ensures SubShift(AES, Block(0x00102030, 0x40506070, 0x8090a0b0, 0xc0d0e0f0)) ==
            Block(0x6353e08c, 0x0960e104, 0xcd70b751, 0xbacad0e7)
  {
  }

  lemma Shift1()
    ensures SubShift(AES, Block(0x89d810e8, 0x855ace68, 0x2d1843d8, 0xcb128fe4)) ==
            Block(0xa7be1a69, 0x97ad739b, 0xd8c9ca45, 0x1f618b61)
  {
  }

  lemma Shift2()
    ensures SubShift(AES, Block(0x4915598f, 0x55e5d7a0, 0xdaca94fa, 0x1f0a63f7)) ==
            Block(0x3bd92268, 0xfc74fb73, 0x5767cbe0, 0xc0590e2d)
  {
  }

  lemma Shift3()
    ensures SubShift(AES, Block(0xfa636a28, 0x25b339c9, 0x40668a31, 0x57244d17)) ==
            Block(0x2d6d7ef0, 0x3f33e334, 0x093602dd, 0x5bfb12c7)
  {
  }

  lemma Shift4()
    ensures SubShift(AES, Block(0x24724023, 0x6966b3fa, 0x6ed27532, 0x88425b6c)) ==
            Block(0x36339d50, 0xf9b53926, 0x9f2c092d, 0xc4406d23)
  {
  }

  lemma Shift5()
    ensures SubShift(AES, Block(0xc81677bc, 0x9b7ac93b, 0x25027992, 0xb0261996)) ==
            Block(0xe8dab690, 0x1477d465, 0x3ff7f5e2, 0xe747dd4f)
  {
  }

  lemma Shift6()
    ensures SubShift(AES, Block(0xc62fe109, 0xf75eedc3, 0xcc79395d, 0x84f9cf5d)) ==
            Block(0xb458124c, 0x68b68a01, 0x4b99f82e, 0x5f15554c)
  {
  }

  lemma Shift7()
    ensures SubShift(AES, Block(0xd1876c0f, 0x79c4300a, 0xb45594ad, 0xd66ff41f)) ==
            Block(0x3e1c22c0, 0xb6fcbf76, 0x8da85067, 0xf6170495)
  {
  }

  lemma Shift8()
    ensures SubShift(AES, Block(0xfde3bad2, 0x05e5d0d7, 0x3547964e, 0xf1fe37f1)) ==
            Block(0x54d990a1, 0x6ba09ab5, 0x96bbf40e, 0xa111702f)
  {
  }

  lemma Shift9()
    ensures SubShift(AES, Block(0xbd6e7c3d, 0xf2b5779e, 0x0b61216e, 0x8b10b689)) ==
            Block(0x7ad5fda7, 0x89ef4e27, 0x2bca100b, 0x3d9ff59f)
  {
  }

  // ---------------------------------------------------------------- the states

  lemma State0(key: seq<bv32>, rk: seq<bv32>)
    requires Given(key, rk)
    ensures EncState(AesOps(AES), rk, INPUT_BLOCK, 0) == Block(0x00102030, 0x40506070, 0x8090a0b0, 0xc0d0e0f0)
  {
    Key0(key, rk);
  }

  lemma State1(key: seq<bv32>, rk: seq<bv32>)
    requires Given(key, rk)
    ensures EncState(AesOps(AES), rk, INPUT_BLOCK, 1) == Block(0x89d810e8, 0x855ace68, 0x2d1843d8, 0xcb128fe4)
  {
    State0(key, rk);
    Key1(key, rk);
    Shift0();
    RoundStep(rk, INPUT_BLOCK, 0, Block(0xd6aa74fd, 0xd2af72fa, 0xdaa678f1, 0xd6ab76fe),
              Block(0x00102030, 0x40506070, 0x8090a0b0, 0xc0d0e0f0),
              Block(0x6353e08c, 0x0960e104, 0xcd70b751, 0xbacad0e7),
              Block(0x89d810e8, 0x855ace68, 0x2d1843d8, 0xcb128fe4));
  }

  lemma State2(key: seq<bv32>, rk: seq<bv32>)
    requires Given(key, rk)
    ensures EncState(AesOps(AES), rk, INPUT_BLOCK, 2) == Block(0x4915598f, 0x55e5d7a0, 0xdaca94fa, 0x1f0a63f7)
  {
    State1(key, rk);
    Key2(key, rk);
    Shift1();
    RoundStep(rk, INPUT_BLOCK, 1, Block(0xb692cf0b, 0x643dbdf1, 0xbe9bc500, 0x6830b3fe),
              Block(0x89d810e8, 0x855ace68, 0x2d1843d8, 0xcb128fe4),
              Block(0xa7be1a69, 0x97ad739b, 0xd8c9ca45, 0x1f618b61),
              Block(0x4915598f, 0x55e5d7a0, 0xdaca94fa, 0x1f0a63f7));
  }

  lemma State3(key: seq<bv32>, rk: seq<bv32>)
    requires Given(key, rk)
    ensures EncState(AesOps(AES), rk, INPUT_BLOCK, 3) == Block(0xfa636a28, 0x25b339c9, 0x40668a31, 0x57244d17)
  {
    State2(key, rk);
    Key3(key, rk);
    Shift2();
    RoundStep(rk, INPUT_BLOCK, 2, Block(0xb6ff744e, 0xd2c2c9bf, 0x6c590cbf, 0x0469bf41),
              Block(0x4915598f, 0x55e5d7a0, 0xdaca94fa, 0x1f0a63f7),
              Block(0x3bd92268, 0xfc74fb73, 0x5767cbe0, 0xc0590e2d),
              Block(0xfa636a28, 0x25b339c9, 0x40668a31, 0x57244d17));
  }

  lemma State4(key: seq<bv32>, rk: seq<bv32>)
    requires Given(key, rk)
    ensures EncState(AesOps(AES), rk, INPUT_BLOCK, 4) == Block(0x24724023, 0x6966b3fa, 0x6ed27532, 0x88425b6c)
  {
    State3(key, rk);
    Key4(key, rk);
    Shift3();
    RoundStep(rk, INPUT_BLOCK, 3, Block(0x47f7f7bc, 0x95353e03, 0xf96c32bc, 0xfd058dfd),
              Block(0xfa636a28, 0x25b339c9, 0x40668a31, 0x57244d17),
              Block(0x2d6d7ef0, 0x3f33e334, 0x093602dd, 0x5bfb12c7),
              Block(0x24724023, 0x6966b3fa, 0x6ed27532, 0x88425b6c));
  }

  lemma State5(key: seq<bv32>, rk: seq<bv32>)
    requires Given(key, rk)
    ensures EncState(AesOps(AES), rk, INPUT_BLOCK, 5) == Block(0xc81677bc, 0x9b7ac93b, 0x25027992, 0xb0261996)
  {
    State4(key, rk);
    Key5(key, rk);
    Shift4();
    RoundStep(rk, INPUT_BLOCK, 4, Block(0x3caaa3e8, 0xa99f9deb, 0x50f3af57, 0xadf622aa),
              Block(0x24724023, 0x6966b3fa, 0x6ed27532, 0x88425b6c),
              Block(0x36339d50, 0xf9b53926, 0x9f2c092d, 0xc4406d23),
              Block(0xc81677bc, 0x9b7ac93b, 0x25027992, 0xb0261996));
  }

  lemma State6(key: seq<bv32>, rk: seq<bv32>)
    requires Given(key, rk)
    ensures EncState(AesOps(AES), rk, INPUT_BLOCK, 6) == Block(0xc62fe109, 0xf75eedc3, 0xcc79395d, 0x84f9cf5d)
  {
    State5(key, rk);
    Key6(key, rk);
    Shift5();
    RoundStep(rk, INPUT_BLOCK, 5, Block(0x5e390f7d, 0xf7a69296, 0xa7553dc1, 0x0aa31f6b),
              Block(0xc81677bc, 0x9b7ac93b, 0x25027992, 0xb0261996),
              Block(0xe8dab690, 0x1477d465, 0x3ff7f5e2, 0xe747dd4f),
              Block(0xc62fe109, 0xf75eedc3, 0xcc79395d, 0x84f9cf5d));
  }

  lemma State7(key: seq<bv32>, rk: seq<bv32>)
    requires Given(key, rk)
    ensures EncState(AesOps(AES), rk, INPUT_BLOCK, 7) == Block(0xd1876c0f, 0x79c4300a, 0xb45594ad, 0xd66ff41f)
  {
    State6(key, rk);
    Key7(key, rk);
    Shift6();
    RoundStep(rk, INPUT_BLOCK, 6, Block(0x14f9701a, 0xe35fe28c, 0x440adf4d, 0x4ea9c026),
              Block(0xc62fe109, 0xf75eedc3, 0xcc79395d, 0x84f9cf5d),
              Block(0xb458124c, 0x68b68a01, 0x4b99f82e, 0x5f15554c),
              Block(0xd1876c0f, 0x79c4300a, 0xb45594ad, 0xd66ff41f));
  }

  lemma State8(key: seq<bv32>, rk: seq<bv32>)
    requires Given(key, rk)
    ensures EncState(AesOps(AES), rk, INPUT_BLOCK, 8) == Block(0xfde3bad2, 0x05e5d0d7, 0x3547964e, 0xf1fe37f1)
  {
    State7(key, rk);
    Key8(key, rk);
    Shift7();
    RoundStep(rk, INPUT_BLOCK, 7, Block(0x47438735, 0xa41c65b9, 0xe016baf4, 0xaebf7ad2),
              Block(0xd1876c0f, 0x79c4300a, 0xb45594ad, 0xd66ff41f),
              Block(0x3e1c22c0, 0xb6fcbf76, 0x8da85067, 0xf6170495),
              Block(0xfde3bad2, 0x05e5d0d7, 0x3547964e, 0xf1fe37f1));
  }

  lemma State9(key: seq<bv32>, rk: seq<bv32>)
    requires Given(key, rk)
    ensures EncState(AesOps(AES), rk, INPUT_BLOCK, 9) == Block(0xbd6e7c3d, 0xf2b5779e, 0x0b61216e, 0x8b10b689)
  {
    State8(key, rk);
    Key9(key, rk);
    Shift8();
    RoundStep(rk, INPUT_BLOCK, 8, Block(0x549932d1, 0xf0855768, 0x1093ed9c, 0xbe2c974e),
              Block(0xfde3bad2, 0x05e5d0d7, 0x3547964e, 0xf1fe37f1),
              Block(0x54d990a1, 0x6ba09ab5, 0x96bbf40e, 0xa111702f),
              Block(0xbd6e7c3d, 0xf2b5779e, 0x0b61216e, 0x8b10b689));
  }

  lemma LastBytes()
    ensures BytesOf(AddKey(Block(0x7ad5fda7, 0x89ef4e27, 0x2bca100b, 0x3d9ff59f),
                           Block(0x13111d7f, 0xe3944a17, 0xf307a78b, 0x4d2b30c5))) == OUTPUT
  {
  }

  /** FIPS 197, appendix C.1. */
  lemma Encrypted(key: seq<bv32>, rk: seq<bv32>)
    requires Given(key, rk)
    ensures EncBytes(AES, rk, 10, INPUT) == OUTPUT
  {
    State9(key, rk);
    Key10(key, rk);
    Shift9();
    LastBytes();
    InputWords();
    LastRound(rk, INPUT, 10, Block(0x13111d7f, 0xe3944a17, 0xf307a78b, 0x4d2b30c5),
              Block(0xbd6e7c3d, 0xf2b5779e, 0x0b61216e, 0x8b10b689),
              Block(0x7ad5fda7, 0x89ef4e27, 0x2bca100b, 0x3d9ff59f), OUTPUT);
  }

  /** AES_set_encrypt_key and AES_encrypt on the example. */
  method EncryptExample() returns (out: seq<bv8>)
    ensures out == OUTPUT
  {
    var userKey := CountingKey(16);
    CountingWords4(userKey[..]);
    ghost var rk;
    AesLaws();
    out, rk := EncryptUnder(AES, userKey, 128, INPUT);
    Encrypted(KeyWords(userKey[..], 4), rk);
  }
}
