/** The AES-192 example of FIPS 197, appendix C.2, computed with the tables of aes.c: the key schedule and the cipher
    round by round. */
module AesExample192 {
  import opened AesField
  import opened AesCipher
  import opened AesCode
  import opened AesKeys
  import opened AesTables
  import opened AesTrace

  const OUTPUT: seq<bv8> := [0xdd, 0xa9, 0x7c, 0xa4, 0x86, 0x4c, 0xdf, 0xe0,
                             0x6e, 0xaf, 0x70, 0xa0, 0xec, 0x0d, 0x71, 0x91]

  /** The key 00 01 02 ..., and a schedule of it. */
  ghost predicate Given(key: seq<bv32>, rk: seq<bv32>) {
    && |key| == 6 && IsSchedule(AES, key, rk)
    && key[0] == 0x00010203 && key[1] == 0x04050607 && key[2] == 0x08090a0b && key[3] == 0x0c0d0e0f
    && key[4] == 0x10111213 && key[5] == 0x14151617
  }

  // ---------------------------------------------------------------- the schedule

  lemma Key0(key: seq<bv32>, rk: seq<bv32>)
    requires Given(key, rk)
    ensures RoundKey(rk, 0) == Block(0x00010203, 0x04050607, 0x08090a0b, 0x0c0d0e0f)
  {
    GivenWords(AES, key, rk);
  }

  lemma Sub6()
    ensures SubWord(AES.s, RotWord(0x14151617)) == 0x5947f0fa
  {
  }

  lemma Key1(key: seq<bv32>, rk: seq<bv32>)
    requires Given(key, rk)
    ensures RoundKey(rk, 1) == Block(0x10111213, 0x14151617, 0x5846f2f9, 0x5c43f4fe)
  {
    Key0(key, rk);
    GivenWords(AES, key, rk);
    Sub6();
    AesHead(key, rk, 6, 6, 1, 0x01000000);
    LaterWord(AES, key, rk, 6, 7, 1);
  }

  lemma Key2(key: seq<bv32>, rk: seq<bv32>)
    requires Given(key, rk)
    ensures RoundKey(rk, 2) == Block(0x544afef5, 0x5847f0fa, 0x4856e2e9, 0x5c43f4fe)
  {
    Key0(key, rk);
    Key1(key, rk);
    LaterWord(AES, key, rk, 6, 8, 2);
    LaterWord(AES, key, rk, 6, 9, 3);
    LaterWord(AES, key, rk, 6, 10, 4);
    LaterWord(AES, key, rk, 6, 11, 5);
  }

  lemma Sub12()
    ensures SubWord(AES.s, RotWord(0x5c43f4fe)) == 0x1abfbb4a
  {
  }

  lemma Key3(key: seq<bv32>, rk: seq<bv32>)
    requires Given(key, rk)
    ensures RoundKey(rk, 3) == Block(0x40f949b3, 0x1cbabd4d, 0x48f043b8, 0x10b7b342)
  {
    Key1(key, rk);
    Key2(key, rk);
    Sub12();
    AesHead(key, rk, 6, 12, 2, 0x02000000);
    LaterWord(AES, key, rk, 6, 13, 1);
    LaterWord(AES, key, rk, 6, 14, 2);
    LaterWord(AES, key, rk, 6, 15, 3);
  }

  lemma Sub18()
    ensures SubWord(AES.s, RotWord(0x04a2a555)) == 0x3a06fcf2
  {
  }

  lemma Key4(key: seq<bv32>, rk: seq<bv32>)
    requires Given(key, rk)
    ensures RoundKey(rk, 4) == Block(0x58e151ab, 0x04a2a555, 0x7effb541, 0x6245080c)
  {
    Key2(key, rk);
    Key3(key, rk);
    LaterWord(AES, key, rk, 6, 16, 4);
    LaterWord(AES, key, rk, 6, 17, 5);
    Sub18();
    AesHead(key, rk, 6, 18, 3, 0x04000000);
    LaterWord(AES, key, rk, 6, 19, 1);
  }

  lemma Key5(key: seq<bv32>, rk: seq<bv32>)
    requires Given(key, rk)
    ensures RoundKey(rk, 5) == Block(0x2ab54bb4, 0x3a02f8f6, 0x62e3a95d, 0x66410c08)
  {
    Key3(key, rk);
    Key4(key, rk);
    LaterWord(AES, key, rk, 6, 20, 2);
    LaterWord(AES, key, rk, 6, 21, 3);
    LaterWord(AES, key, rk, 6, 22, 4);
    LaterWord(AES, key, rk, 6, 23, 5);
  }

  lemma Sub24()
    ensures SubWord(AES.s, RotWord(0x66410c08)) == 0x83fe3033
  {
  }

  lemma Key6(key: seq<bv32>, rk: seq<bv32>)
    requires Given(key, rk)
    ensures RoundKey(rk, 6) == Block(0xf5018572, 0x97448d7e, 0xbdf1c6ca, 0x87f33e3c)
  {
    Key4(key, rk);
    Key5(key, rk);
    Sub24();
    AesHead(key, rk, 6, 24, 4, 0x08000000);
    LaterWord(AES, key, rk, 6, 25, 1);
    LaterWord(AES, key, rk, 6, 26, 2);
    LaterWord(AES, key, rk, 6, 27, 3);
  }

  lemma Sub30()
    ensures SubWord(AES.s, RotWord(0x83519b69)) == 0xd114f9ec
  {
  }

  lemma Key7(key: seq<bv32>, rk: seq<bv32>)
    requires Given(key, rk)
    ensures RoundKey(rk, 7) == Block(0xe5109761, 0x83519b69, 0x34157c9e, 0xa351f1e0)
  {
    Key5(key, rk);
    Key6(key, rk);
    LaterWord(AES, key, rk, 6, 28, 4);
    LaterWord(AES, key, rk, 6, 29, 5);
    Sub30();
    AesHead(key, rk, 6, 30, 5, 0x10000000);
    LaterWord(AES, key, rk, 6, 31, 1);
  }

  lemma Key8(key: seq<bv32>, rk: seq<bv32>)
    requires Given(key, rk)
    ensures RoundKey(rk, 8) == Block(0x1ea0372a, 0x99530916, 0x7c439e77, 0xff12051e)
  {
    Key6(key, rk);
    Key7(key, rk);
    LaterWord(AES, key, rk, 6, 32, 2);
    LaterWord(AES, key, rk, 6, 33, 3);
    LaterWord(AES, key, rk, 6, 34, 4);
    LaterWord(AES, key, rk, 6, 35, 5);
  }

  lemma Sub36()
    ensures SubWord(AES.s, RotWord(0xff12051e)) == 0xc96b7216
  {
  }

  lemma Key9(key: seq<bv32>, rk: seq<bv32>)
    requires Given(key, rk)
    ensures RoundKey(rk, 9) == Block(0xdd7e0e88, 0x7e2fff68, 0x608fc842, 0xf9dcc154)
  {
    Key7(key, rk);
    Key8(key, rk);
    Sub36();
    AesHead(key, rk, 6, 36, 6, 0x20000000);
    LaterWord(AES, key, rk, 6, 37, 1);
    LaterWord(AES, key, rk, 6, 38, 2);
    LaterWord(AES, key, rk, 6, 39, 3);
  }

  lemma Sub42()
    ensures SubWord(AES.s, RotWord(0x7a8d5a3d)) == 0x5dbe27da
  {
  }

  lemma Key10(key: seq<bv32>, rk: seq<bv32>)
    requires Given(key, rk)
    ensures RoundKey(rk, 10) == Block(0x859f5f23, 0x7a8d5a3d, 0xc0c02952, 0xbeefd63a)
  {
    Key8(key, rk);
    Key9(key, rk);
    LaterWord(AES, key, rk, 6, 40, 4);
    LaterWord(AES, key, rk, 6, 41, 5);
    Sub42();
    AesHead(key, rk, 6, 42, 7, 0x40000000);
    LaterWord(AES, key, rk, 6, 43, 1);
  }

  lemma Key11(key: seq<bv32>, rk: seq<bv32>)
    requires Given(key, rk)
    ensures RoundKey(rk, 11) == Block(0xde601e78, 0x27bcdf2c, 0xa223800f, 0xd8aeda32)
  {
    Key9(key, rk);
    Key10(key, rk);
    LaterWord(AES, key, rk, 6, 44, 2);
    LaterWord(AES, key, rk, 6, 45, 3);
    LaterWord(AES, key, rk, 6, 46, 4);
    LaterWord(AES, key, rk, 6, 47, 5);
  }

  lemma Sub48()
    ensures SubWord(AES.s, RotWord(0xd8aeda32)) == 0xe4572361
  {
  }

  lemma Key12(key: seq<bv32>, rk: seq<bv32>)
    requires Given(key, rk)
    ensures RoundKey(rk, 12) == Block(0xa4970a33, 0x1a78dc09, 0xc418c271, 0xe3a41d5d)
  {
    Key10(key, rk);
    Key11(key, rk);
    Sub48();
    AesHead(key, rk, 6, 48, 8, 0x80000000);
    LaterWord(AES, key, rk, 6, 49, 1);
    LaterWord(AES, key, rk, 6, 50, 2);
    LaterWord(AES, key, rk, 6, 51, 3);
  }

  // ---------------------------------------------------------------- SubBytes and ShiftRows

  lemma Shift0()
    ensures SubShift(AES, Block(0x00102030, 0x40506070, 0x8090a0b0, 0xc0d0e0f0)) ==
            Block(0x6353e08c, 0x0960e104, 0xcd70b751, 0xbacad0e7)
  {
  }

  lemma Shift1()
    ensures SubShift(AES, Block(0x4f637606, 0x43e0aa85, 0xaff8c9d0, 0x41fa0de4)) ==
            Block(0x84e1dd69, 0x1a41d76f, 0x792d3897, 0x83fbac70)
  {
  }

  lemma Shift2()
    ensures SubShift(AES, Block(0xcb02818c, 0x17d2af9c, 0x62aa6442, 0x8bb25fd7)) ==
            Block(0x1fb5430e, 0xf0accf64, 0xaa370cde, 0x3d77792c)
  {
  }

  lemma Shift3()
    ensures SubShift(AES, Block(0xf75c7778, 0xa327c8ed, 0x8cfebfc1, 0xa6c37f53)) ==
            Block(0x68cc08ed, 0x0abbd2bc, 0x642ef555, 0x244ae878)
  {
  }

  lemma Shift4()
    ensures SubShift(AES, Block(0x22ffc916, 0xa8147441, 0x6496f19c, 0x64ae2532)) ==
            Block(0x93faa123, 0xc2903f47, 0x43e4dd83, 0x431692de)
  {
  }

  lemma Shift5()
    ensures SubShift(AES, Block(0x80121e07, 0x76fd1d8a, 0x8d8c31bc, 0x965d1fee)) ==
            Block(0xcd54c728, 0x3864c0c5, 0x5d4c727e, 0x90c9a465)
  {
  }

  lemma Shift6()
    ensures SubShift(AES, Block(0x671ef1fd, 0x4e2a1e03, 0xdfdcb1ef, 0x3d789b30)) ==
            Block(0x85e5c804, 0x2f861454, 0x9ebca17b, 0x277272df)
  {
  }

  lemma Shift7()
    ensures SubShift(AES, Block(0x0c0370d0, 0x0c01e622, 0x166b8acc, 0xd6db3a2c)) ==
            Block(0xfe7c7e71, 0xfe7f8070, 0x47b95193, 0xf67b8e4b)
  {
  }

  lemma Shift8()
    ensures SubShift(AES, Block(0x7255dad3, 0x0fb80310, 0xe00d6c6b, 0x40d0527c)) ==
            Block(0x406c5010, 0x76d70066, 0xe17057ca, 0x09fc7b7f)
  {
  }

  lemma Shift9()
    ensures SubShift(AES, Block(0xa906b254, 0x968af4e9, 0xb4bdb2d2, 0xf0c44336)) ==
            Block(0xd37e3705, 0x907a1a20, 0x8d1c371e, 0x8c6fbfb5)
  {
  }

  lemma Shift10()
    ensures SubShift(AES, Block(0x88ec930e, 0xf5e7e4b6, 0xcc32f4c9, 0x06d29414)) ==
            Block(0xc494bffa, 0xe62322ab, 0x4bb5dc4e, 0x6fce69dd)
  {
  }

  lemma Shift11()
    ensures SubShift(AES, Block(0xafb73eeb, 0x1cd1b851, 0x62280f27, 0xfb20d585)) ==
            Block(0x793e7697, 0x9c3403e9, 0xaab7b2d1, 0x0fa96ccc)
  {
  }

  // ---------------------------------------------------------------- the states

  lemma State0(key: seq<bv32>, rk: seq<bv32>)
    requires Given(key, rk)
    ensures EncState(AesOps(AES), rk, INPUT_BLOCK, 0) == Block(0x00102030, 0x40506070, 0x8090a0b0, 0xc0d0e0f0)
  {
    Key0(key, rk);
  }

  lemma State1(key: seq<bv32>, rk: seq<bv32>)
    requires Given(key, rk)
    ensures EncState(AesOps(AES), rk, INPUT_BLOCK, 1) == Block(0x4f637606, 0x43e0aa85, 0xaff8c9d0, 0x41fa0de4)
  {
    State0(key, rk);
    Key1(key, rk);
    Shift0();
    RoundStep(rk, INPUT_BLOCK, 0, Block(0x10111213, 0x14151617, 0x5846f2f9, 0x5c43f4fe),
              Block(0x00102030, 0x40506070, 0x8090a0b0, 0xc0d0e0f0),
              Block(0x6353e08c, 0x0960e104, 0xcd70b751, 0xbacad0e7),
              Block(0x4f637606, 0x43e0aa85, 0xaff8c9d0, 0x41fa0de4));
  }

  lemma State2(key: seq<bv32>, rk: seq<bv32>)
    requires Given(key, rk)
    ensures EncState(AesOps(AES), rk, INPUT_BLOCK, 2) == Block(0xcb02818c, 0x17d2af9c, 0x62aa6442, 0x8bb25fd7)
  {
    State1(key, rk);
    Key2(key, rk);
    Shift1();
    RoundStep(rk, INPUT_BLOCK, 1, Block(0x544afef5, 0x5847f0fa, 0x4856e2e9, 0x5c43f4fe),
              Block(0x4f637606, 0x43e0aa85, 0xaff8c9d0, 0x41fa0de4),
              Block(0x84e1dd69, 0x1a41d76f, 0x792d3897, 0x83fbac70),
              Block(0xcb02818c, 0x17d2af9c, 0x62aa6442, 0x8bb25fd7));
  }

  lemma State3(key: seq<bv32>, rk: seq<bv32>)
    requires Given(key, rk)
    ensures EncState(AesOps(AES), rk, INPUT_BLOCK, 3) == Block(0xf75c7778, 0xa327c8ed, 0x8cfebfc1, 0xa6c37f53)
  {
    State2(key, rk);
    Key3(key, rk);
    Shift2();
    RoundStep(rk, INPUT_BLOCK, 2, Block(0x40f949b3, 0x1cbabd4d, 0x48f043b8, 0x10b7b342),
              Block(0xcb02818c, 0x17d2af9c, 0x62aa6442, 0x8bb25fd7),
              Block(0x1fb5430e, 0xf0accf64, 0xaa370cde, 0x3d77792c),
              Block(0xf75c7778, 0xa327c8ed, 0x8cfebfc1, 0xa6c37f53));
  }

  lemma State4(key: seq<bv32>, rk: seq<bv32>)
    requires Given(key, rk)
    ensures EncState(AesOps(AES), rk, INPUT_BLOCK, 4) == Block(0x22ffc916, 0xa8147441, 0x6496f19c, 0x64ae2532)
  {
    State3(key, rk);
    Key4(key, rk);
    Shift3();
    RoundStep(rk, INPUT_BLOCK, 3, Block(0x58e151ab, 0x04a2a555, 0x7effb541, 0x6245080c),
              Block(0xf75c7778, 0xa327c8ed, 0x8cfebfc1, 0xa6c37f53),
              Block(0x68cc08ed, 0x0abbd2bc, 0x642ef555, 0x244ae878),
              Block(0x22ffc916, 0xa8147441, 0x6496f19c, 0x64ae2532));
  }

  lemma State5(key: seq<bv32>, rk: seq<bv32>)
    requires Given(key, rk)
    ensures EncState(AesOps(AES), rk, INPUT_BLOCK, 5) == Block(0x80121e07, 0x76fd1d8a, 0x8d8c31bc, 0x965d1fee)
  {
    State4(key, rk);
    Key5(key, rk);
    Shift4();
    RoundStep(rk, INPUT_BLOCK, 4, Block(0x2ab54bb4, 0x3a02f8f6, 0x62e3a95d, 0x66410c08),
              Block(0x22ffc916, 0xa8147441, 0x6496f19c, 0x64ae2532),
              Block(0x93faa123, 0xc2903f47, 0x43e4dd83, 0x431692de),
              Block(0x80121e07, 0x76fd1d8a, 0x8d8c31bc, 0x965d1fee));
  }

  lemma State6(key: seq<bv32>, rk: seq<bv32>)
    requires Given(key, rk)
    ensures EncState(AesOps(AES), rk, INPUT_BLOCK, 6) == Block(0x671ef1fd, 0x4e2a1e03, 0xdfdcb1ef, 0x3d789b30)
  {
    State5(key, rk);
    Key6(key, rk);
    Shift5();
    RoundStep(rk, INPUT_BLOCK, 5, Block(0xf5018572, 0x97448d7e, 0xbdf1c6ca, 0x87f33e3c),
              Block(0x80121e07, 0x76fd1d8a, 0x8d8c31bc, 0x965d1fee),
              Block(0xcd54c728, 0x3864c0c5, 0x5d4c727e, 0x90c9a465),
              Block(0x671ef1fd, 0x4e2a1e03, 0xdfdcb1ef, 0x3d789b30));
  }

  lemma State7(key: seq<bv32>, rk: seq<bv32>)
    requires Given(key, rk)
    ensures EncState(AesOps(AES), rk, INPUT_BLOCK, 7) == Block(0x0c0370d0, 0x0c01e622, 0x166b8acc, 0xd6db3a2c)
  {
    State6(key, rk);
    Key7(key, rk);
    Shift6();
    RoundStep(rk, INPUT_BLOCK, 6, Block(0xe5109761, 0x83519b69, 0x34157c9e, 0xa351f1e0),
              Block(0x671ef1fd, 0x4e2a1e03, 0xdfdcb1ef, 0x3d789b30),
              Block(0x85e5c804, 0x2f861454, 0x9ebca17b, 0x277272df),
              Block(0x0c0370d0, 0x0c01e622, 0x166b8acc, 0xd6db3a2c));
  }

  lemma State8(key: seq<bv32>, rk: seq<bv32>)
    requires Given(key, rk)
    ensures EncState(AesOps(AES), rk, INPUT_BLOCK, 8) == Block(0x7255dad3, 0x0fb80310, 0xe00d6c6b, 0x40d0527c)
  {
    State7(key, rk);
    Key8(key, rk);
    Shift7();
    RoundStep(rk, INPUT_BLOCK, 7, Block(0x1ea0372a, 0x99530916, 0x7c439e77, 0xff12051e),
              Block(0x0c0370d0, 0x0c01e622, 0x166b8acc, 0xd6db3a2c),
              Block(0xfe7c7e71, 0xfe7f8070, 0x47b95193, 0xf67b8e4b),
              Block(0x7255dad3, 0x0fb80310, 0xe00d6c6b, 0x40d0527c));
  }

  lemma State9(key: seq<bv32>, rk: seq<bv32>)
    requires Given(key, rk)
    ensures EncState(AesOps(AES), rk, INPUT_BLOCK, 9) == Block(0xa906b254, 0x968af4e9, 0xb4bdb2d2, 0xf0c44336)
  {
    State8(key, rk);
    Key9(key, rk);
    Shift8();
    RoundStep(rk, INPUT_BLOCK, 8, Block(0xdd7e0e88, 0x7e2fff68, 0x608fc842, 0xf9dcc154),
              Block(0x7255dad3, 0x0fb80310, 0xe00d6c6b, 0x40d0527c),
              Block(0x406c5010, 0x76d70066, 0xe17057ca, 0x09fc7b7f),
              Block(0xa906b254, 0x968af4e9, 0xb4bdb2d2, 0xf0c44336));
  }

  lemma State10(key: seq<bv32>, rk: seq<bv32>)
    requires Given(key, rk)
    ensures EncState(AesOps(AES), rk, INPUT_BLOCK, 10) == Block(0x88ec930e, 0xf5e7e4b6, 0xcc32f4c9, 0x06d29414)
  {
    State9(key, rk);
    Key10(key, rk);
    Shift9();
    RoundStep(rk, INPUT_BLOCK, 9, Block(0x859f5f23, 0x7a8d5a3d, 0xc0c02952, 0xbeefd63a),
              Block(0xa906b254, 0x968af4e9, 0xb4bdb2d2, 0xf0c44336),
              Block(0xd37e3705, 0x907a1a20, 0x8d1c371e, 0x8c6fbfb5),
              Block(0x88ec930e, 0xf5e7e4b6, 0xcc32f4c9, 0x06d29414));
  }

  lemma State11(key: seq<bv32>, rk: seq<bv32>)
    requires Given(key, rk)
    ensures EncState(AesOps(AES), rk, INPUT_BLOCK, 11) == Block(0xafb73eeb, 0x1cd1b851, 0x62280f27, 0xfb20d585)
  {
    State10(key, rk);
    Key11(key, rk);
    Shift10();
    RoundStep(rk, INPUT_BLOCK, 10, Block(0xde601e78, 0x27bcdf2c, 0xa223800f, 0xd8aeda32),
              Block(0x88ec930e, 0xf5e7e4b6, 0xcc32f4c9, 0x06d29414),
              Block(0xc494bffa, 0xe62322ab, 0x4bb5dc4e, 0x6fce69dd),
              Block(0xafb73eeb, 0x1cd1b851, 0x62280f27, 0xfb20d585));
  }

  lemma LastBytes()
    ensures BytesOf(AddKey(Block(0x793e7697, 0x9c3403e9, 0xaab7b2d1, 0x0fa96ccc),
                           Block(0xa4970a33, 0x1a78dc09, 0xc418c271, 0xe3a41d5d))) == OUTPUT
  {
  }

  /** FIPS 197, appendix C.2. */
  lemma Encrypted(key: seq<bv32>, rk: seq<bv32>)
    requires Given(key, rk)
    ensures EncBytes(AES, rk, 12, INPUT) == OUTPUT
  {
    State11(key, rk);
    Key12(key, rk);
    Shift11();
    LastBytes();
    InputWords();
    LastRound(rk, INPUT, 12, Block(0xa4970a33, 0x1a78dc09, 0xc418c271, 0xe3a41d5d),
              Block(0xafb73eeb, 0x1cd1b851, 0x62280f27, 0xfb20d585),
              Block(0x793e7697, 0x9c3403e9, 0xaab7b2d1, 0x0fa96ccc), OUTPUT);
  }

  /** AES_set_encrypt_key and AES_encrypt on the example. */
  method EncryptExample() returns (out: seq<bv8>)
    ensures out == OUTPUT
  {
    var userKey := CountingKey(24);
    CountingWords6(userKey[..]);
    ghost var rk;
    AesLaws();
    out, rk := EncryptUnder(AES, userKey, 192, INPUT);
    Encrypted(KeyWords(userKey[..], 6), rk);
  }
}
