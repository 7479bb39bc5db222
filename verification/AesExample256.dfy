/** The AES-256 example of FIPS 197, appendix C.3, computed with the tables of aes.c: the key schedule and the cipher
    round by round. */
module AesExample256 {
  import opened AesField
  import opened AesCipher
  import opened AesCode
  import opened AesKeys
  import opened AesTables
  import opened AesTrace

  const OUTPUT: seq<bv8> := [0x8e, 0xa2, 0xb7, 0xca, 0x51, 0x67, 0x45, 0xbf,
                             0xea, 0xfc, 0x49, 0x90, 0x4b, 0x49, 0x60, 0x89]

  /** The key 00 01 02 ..., and a schedule of it. */
  ghost predicate Given(key: seq<bv32>, rk: seq<bv32>) {
    && |key| == 8 && IsSchedule(AES, key, rk)
    && key[0] == 0x00010203 && key[1] == 0x04050607 && key[2] == 0x08090a0b && key[3] == 0x0c0d0e0f
    && key[4] == 0x10111213 && key[5] == 0x14151617 && key[6] == 0x18191a1b && key[7] == 0x1c1d1e1f
  }

  // ---------------------------------------------------------------- the schedule

  lemma Key0(key: seq<bv32>, rk: seq<bv32>)
    requires Given(key, rk)
    ensures RoundKey(rk, 0) == Block(0x00010203, 0x04050607, 0x08090a0b, 0x0c0d0e0f)
  {
    GivenWords(AES, key, rk);
  }

  lemma Key1(key: seq<bv32>, rk: seq<bv32>)
    requires Given(key, rk)
    ensures RoundKey(rk, 1) == Block(0x10111213, 0x14151617, 0x18191a1b, 0x1c1d1e1f)
  {
    GivenWords(AES, key, rk);
  }

  lemma Sub8()
    ensures SubWord(AES.s, RotWord(0x1c1d1e1f)) == 0xa472c09c
  {
  }

  lemma Key2(key: seq<bv32>, rk: seq<bv32>)
    requires Given(key, rk)
    ensures RoundKey(rk, 2) == Block(0xa573c29f, 0xa176c498, 0xa97fce93, 0xa572c09c)
  {
    Key0(key, rk);
    Key1(key, rk);
    Sub8();
    AesHead(key, rk, 8, 8, 1, 0x01000000);
    LaterWord(AES, key, rk, 8, 9, 1);
    LaterWord(AES, key, rk, 8, 10, 2);
    LaterWord(AES, key, rk, 8, 11, 3);
  }

  lemma Sub12()
    ensures SubWord(AES.s, 0xa572c09c) == 0x0640bade
  {
  }

  lemma Key3(key: seq<bv32>, rk: seq<bv32>)
    requires Given(key, rk)
    ensures RoundKey(rk, 3) == Block(0x1651a8cd, 0x0244beda, 0x1a5da4c1, 0x0640bade)
  {
    Key1(key, rk);
    Key2(key, rk);
    Sub12();
    LaterWord(AES, key, rk, 8, 12, 4);
    LaterWord(AES, key, rk, 8, 13, 5);
    LaterWord(AES, key, rk, 8, 14, 6);
    LaterWord(AES, key, rk, 8, 15, 7);
  }

  lemma Sub16()
    ensures SubWord(AES.s, RotWord(0x0640bade)) == 0x09f41d6f
  {
  }

  lemma Key4(key: seq<bv32>, rk: seq<bv32>)
    requires Given(key, rk)
    ensures RoundKey(rk, 4) == Block(0xae87dff0, 0x0ff11b68, 0xa68ed5fb, 0x03fc1567)
  {
    Key2(key, rk);
    Key3(key, rk);
    Sub16();
    AesHead(key, rk, 8, 16, 2, 0x02000000);
    LaterWord(AES, key, rk, 8, 17, 1);
    LaterWord(AES, key, rk, 8, 18, 2);
    LaterWord(AES, key, rk, 8, 19, 3);
  }

  lemma Sub20()
    ensures SubWord(AES.s, 0x03fc1567) == 0x7bb05985
  {
  }

  lemma Key5(key: seq<bv32>, rk: seq<bv32>)
    requires Given(key, rk)
    ensures RoundKey(rk, 5) == Block(0x6de1f148, 0x6fa54f92, 0x75f8eb53, 0x73b8518d)
  {
    Key3(key, rk);
    Key4(key, rk);
    Sub20();
    LaterWord(AES, key, rk, 8, 20, 4);
    LaterWord(AES, key, rk, 8, 21, 5);
    LaterWord(AES, key, rk, 8, 22, 6);
    LaterWord(AES, key, rk, 8, 23, 7);
  }

  lemma Sub24()
    ensures SubWord(AES.s, RotWord(0x73b8518d)) == 0x6cd15d8f
  {
  }

  lemma Key6(key: seq<bv32>, rk: seq<bv32>)
    requires Given(key, rk)
    ensures RoundKey(rk, 6) == Block(0xc656827f, 0xc9a79917, 0x6f294cec, 0x6cd5598b)
  {
    Key4(key, rk);
    Key5(key, rk);
    Sub24();
    AesHead(key, rk, 8, 24, 3, 0x04000000);
    LaterWord(AES, key, rk, 8, 25, 1);
    LaterWord(AES, key, rk, 8, 26, 2);
    LaterWord(AES, key, rk, 8, 27, 3);
  }

  lemma Sub28()
    ensures SubWord(AES.s, 0x6cd5598b) == 0x5003cb3d
  {
  }

  lemma Key7(key: seq<bv32>, rk: seq<bv32>)
    requires Given(key, rk)
    ensures RoundKey(rk, 7) == Block(0x3de23a75, 0x524775e7, 0x27bf9eb4, 0x5407cf39)
  {
    Key5(key, rk);
    Key6(key, rk);
    Sub28();
    LaterWord(AES, key, rk, 8, 28, 4);
    LaterWord(AES, key, rk, 8, 29, 5);
    LaterWord(AES, key, rk, 8, 30, 6);
    LaterWord(AES, key, rk, 8, 31, 7);
  }

  lemma Sub32()
    ensures SubWord(AES.s, RotWord(0x5407cf39)) == 0xc58a1220
  {
  }

  lemma Key8(key: seq<bv32>, rk: seq<bv32>)
    requires Given(key, rk)
    ensures RoundKey(rk, 8) == Block(0x0bdc905f, 0xc27b0948, 0xad5245a4, 0xc1871c2f)
  {
    Key6(key, rk);
    Key7(key, rk);
    Sub32();
    AesHead(key, rk, 8, 32, 4, 0x08000000);
    LaterWord(AES, key, rk, 8, 33, 1);
    LaterWord(AES, key, rk, 8, 34, 2);
    LaterWord(AES, key, rk, 8, 35, 3);
  }

  lemma Sub36()
    ensures SubWord(AES.s, 0xc1871c2f) == 0x78179c15
  {
  }

  lemma Key9(key: seq<bv32>, rk: seq<bv32>)
    requires Given(key, rk)
    ensures RoundKey(rk, 9) == Block(0x45f5a660, 0x17b2d387, 0x300d4d33, 0x640a820a)
  {
    Key7(key, rk);
    Key8(key, rk);
    Sub36();
    LaterWord(AES, key, rk, 8, 36, 4);
    LaterWord(AES, key, rk, 8, 37, 5);
    LaterWord(AES, key, rk, 8, 38, 6);
    LaterWord(AES, key, rk, 8, 39, 7);
  }

  lemma Sub40()
    ensures SubWord(AES.s, RotWord(0x640a820a)) == 0x67136743
  {
  }

  lemma Key10(key: seq<bv32>, rk: seq<bv32>)
    requires Given(key, rk)
    ensures RoundKey(rk, 10) == Block(0x7ccff71c, 0xbeb4fe54, 0x13e6bbf0, 0xd261a7df)
  {
    Key8(key, rk);
    Key9(key, rk);
    Sub40();
    AesHead(key, rk, 8, 40, 5, 0x10000000);
    LaterWord(AES, key, rk, 8, 41, 1);
    LaterWord(AES, key, rk, 8, 42, 2);
    LaterWord(AES, key, rk, 8, 43, 3);
  }

  lemma Sub44()
    ensures SubWord(AES.s, 0xd261a7df) == 0xb5ef5c9e
  {
  }

  lemma Key11(key: seq<bv32>, rk: seq<bv32>)
    requires Given(key, rk)
    ensures RoundKey(rk, 11) == Block(0xf01afafe, 0xe7a82979, 0xd7a5644a, 0xb3afe640)
  {
    Key9(key, rk);
    Key10(key, rk);
    Sub44();
    LaterWord(AES, key, rk, 8, 44, 4);
    LaterWord(AES, key, rk, 8, 45, 5);
    LaterWord(AES, key, rk, 8, 46, 6);
    LaterWord(AES, key, rk, 8, 47, 7);
  }

  lemma Sub48()
    ensures SubWord(AES.s, RotWord(0xb3afe640)) == 0x798e096d
  {
  }

  lemma Key12(key: seq<bv32>, rk: seq<bv32>)
    requires Given(key, rk)
    ensures RoundKey(rk, 12) == Block(0x2541fe71, 0x9bf50025, 0x8813bbd5, 0x5a721c0a)
  {
    Key10(key, rk);
    Key11(key, rk);
    Sub48();
    AesHead(key, rk, 8, 48, 6, 0x20000000);
    LaterWord(AES, key, rk, 8, 49, 1);
    LaterWord(AES, key, rk, 8, 50, 2);
    LaterWord(AES, key, rk, 8, 51, 3);
  }

  lemma Sub52()
    ensures SubWord(AES.s, 0x5a721c0a) == 0xbe409c67
  {
  }

  lemma Key13(key: seq<bv32>, rk: seq<bv32>)
    requires Given(key, rk)
    ensures RoundKey(rk, 13) == Block(0x4e5a6699, 0xa9f24fe0, 0x7e572baa, 0xcdf8cdea)
  {
    Key11(key, rk);
    Key12(key, rk);
    Sub52();
    LaterWord(AES, key, rk, 8, 52, 4);
    LaterWord(AES, key, rk, 8, 53, 5);
    LaterWord(AES, key, rk, 8, 54, 6);
    LaterWord(AES, key, rk, 8, 55, 7);
  }

  lemma Sub56()
    ensures SubWord(AES.s, RotWord(0xcdf8cdea)) == 0x41bd87bd
  {
  }

  lemma Key14(key: seq<bv32>, rk: seq<bv32>)
    requires Given(key, rk)
    ensures RoundKey(rk, 14) == Block(0x24fc79cc, 0xbf0979e9, 0x371ac23c, 0x6d68de36)
  {
    Key12(key, rk);
    Key13(key, rk);
    Sub56();
    AesHead(key, rk, 8, 56, 7, 0x40000000);
    LaterWord(AES, key, rk, 8, 57, 1);
    LaterWord(AES, key, rk, 8, 58, 2);
    LaterWord(AES, key, rk, 8, 59, 3);
  }

  // ---------------------------------------------------------------- SubBytes and ShiftRows

  lemma Shift0()
    ensures SubShift(AES, Block(0x00102030, 0x40506070, 0x8090a0b0, 0xc0d0e0f0)) ==
            Block(0x6353e08c, 0x0960e104, 0xcd70b751, 0xbacad0e7)
  {
  }

  lemma Shift1()
    ensures SubShift(AES, Block(0x4f637606, 0x43e0aa85, 0xefa72132, 0x01a4e705)) ==
            Block(0x84e1fd6b, 0x1a5c946f, 0xdf493897, 0x7cfbac23)
  {
  }

  lemma Shift2()
    ensures SubShift(AES, Block(0x1859fbc2, 0x8a1c00a0, 0x78ed8aad, 0xc42f6109)) ==
            Block(0xad9c7e01, 0x7e55ef25, 0xbc150fe0, 0x1ccb6395)
  {
  }

  lemma Shift3()
    ensures SubShift(AES, Block(0x975c66c1, 0xcb9f3fa8, 0xa93a28df, 0x8ee10f63)) ==
            Block(0x88db34fb, 0x1f807678, 0xd3f833c2, 0x194a759e)
  {
  }

  lemma Shift4()
    ensures SubShift(AES, Block(0x1c05f271, 0xa417e04f, 0xf921c5c1, 0x04701554)) ==
            Block(0x9cf0a620, 0x49fd59a3, 0x99518984, 0xf26be178)
  {
  }

  lemma Shift5()
    ensures SubShift(AES, Block(0xc357aae1, 0x1b45b7b0, 0xa2c7bd28, 0xa8dc99fa)) ==
            Block(0x2e6e7a2d, 0xafc6eef8, 0x3a86ace7, 0xc25ba934)
  {
  }

  lemma Shift6()
    ensures SubShift(AES, Block(0x7f074143, 0xcb4e243e, 0xc10c815d, 0x8375d54c)) ==
            Block(0xd22f0c29, 0x1ffe031a, 0x789d83b2, 0xecc5364c)
  {
  }

  lemma Shift7()
    ensures SubShift(AES, Block(0xd653a469, 0x6ca0bc0f, 0x5acaab5d, 0xb96c5e7d)) ==
            Block(0xf6e062ff, 0x507458f9, 0xbe504976, 0x56ed654c)
  {
  }

  lemma Shift8()
    ensures SubShift(AES, Block(0x5aa85839, 0x5fd28d7d, 0x05e1a388, 0x68f3b9c5)) ==
            Block(0xbeb50aa6, 0xcff85612, 0x6b0d6aff, 0x45c25dc4)
  {
  }

  lemma Shift9()
    ensures SubShift(AES, Block(0x4a824851, 0xc57e7e47, 0x643de50c, 0x2af3e8c9)) ==
            Block(0xd6f3d9dd, 0xa6279bd1, 0x430d52a0, 0xe513f3fe)
  {
  }

  lemma Shift10()
    ensures SubShift(AES, Block(0xc14907f6, 0xca3b3aa0, 0x70e9aa31, 0x3b52b5ec)) ==
            Block(0x78e2acce, 0x741ed542, 0x5100c5e0, 0xe23b80c7)
  {
  }

  lemma Shift11()
    ensures SubShift(AES, Block(0x5f9c6abf, 0xbac634aa, 0x50409fa7, 0x66677653)) ==
            Block(0xcfb4dbed, 0xf4093808, 0x538502ac, 0x33de185c)
  {
  }

  lemma Shift12()
    ensures SubShift(AES, Block(0x51660495, 0x43539503, 0x14fb86e4, 0x01922521)) ==
            Block(0xd1ed44fd, 0x1a0f3f2a, 0xfa4ff27b, 0x7c332a69)
  {
  }

  lemma Shift13()
    ensures SubShift(AES, Block(0x627bceb9, 0x999d5aaa, 0xc945ecf4, 0x23f56da5)) ==
            Block(0xaa5ece06, 0xee6e3c56, 0xdde68bac, 0x2621bebf)
  {
  }

  // ---------------------------------------------------------------- the states

  lemma State0(key: seq<bv32>, rk: seq<bv32>)
    requires Given(key, rk)
    ensures EncState(AesOps(AES), rk, INPUT_BLOCK, 0) == Block(0x00102030, 0x40506070, 0x8090a0b0, 0xc0d0e0f0)
  {
    Key0(key, rk);
  }

  lemma State1(key: seq<bv32>, rk: seq<bv32>)
    requires Given(key, rk)
    ensures EncState(AesOps(AES), rk, INPUT_BLOCK, 1) == Block(0x4f637606, 0x43e0aa85, 0xefa72132, 0x01a4e705)
  {
    State0(key, rk);
    Key1(key, rk);
    Shift0();
    RoundStep(rk, INPUT_BLOCK, 0, Block(0x10111213, 0x14151617, 0x18191a1b, 0x1c1d1e1f),
              Block(0x00102030, 0x40506070, 0x8090a0b0, 0xc0d0e0f0),
              Block(0x6353e08c, 0x0960e104, 0xcd70b751, 0xbacad0e7),
              Block(0x4f637606, 0x43e0aa85, 0xefa72132, 0x01a4e705));
  }

  lemma State2(key: seq<bv32>, rk: seq<bv32>)
    requires Given(key, rk)
    ensures EncState(AesOps(AES), rk, INPUT_BLOCK, 2) == Block(0x1859fbc2, 0x8a1c00a0, 0x78ed8aad, 0xc42f6109)
  {
    State1(key, rk);
    Key2(key, rk);
    Shift1();
    RoundStep(rk, INPUT_BLOCK, 1, Block(0xa573c29f, 0xa176c498, 0xa97fce93, 0xa572c09c),
              Block(0x4f637606, 0x43e0aa85, 0xefa72132, 0x01a4e705),
              Block(0x84e1fd6b, 0x1a5c946f, 0xdf493897, 0x7cfbac23),
              Block(0x1859fbc2, 0x8a1c00a0, 0x78ed8aad, 0xc42f6109));
  }

  lemma State3(key: seq<bv32>, rk: seq<bv32>)
    requires Given(key, rk)
    ensures EncState(AesOps(AES), rk, INPUT_BLOCK, 3) == Block(0x975c66c1, 0xcb9f3fa8, 0xa93a28df, 0x8ee10f63)
  {
    State2(key, rk);
    Key3(key, rk);
    Shift2();
    RoundStep(rk, INPUT_BLOCK, 2, Block(0x1651a8cd, 0x0244beda, 0x1a5da4c1, 0x0640bade),
              Block(0x1859fbc2, 0x8a1c00a0, 0x78ed8aad, 0xc42f6109),
              Block(0xad9c7e01, 0x7e55ef25, 0xbc150fe0, 0x1ccb6395),
              Block(0x975c66c1, 0xcb9f3fa8, 0xa93a28df, 0x8ee10f63));
  }

  lemma State4(key: seq<bv32>, rk: seq<bv32>)
    requires Given(key, rk)
    ensures EncState(AesOps(AES), rk, INPUT_BLOCK, 4) == Block(0x1c05f271, 0xa417e04f, 0xf921c5c1, 0x04701554)
  {
    State3(key, rk);
    Key4(key, rk);
    Shift3();
    RoundStep(rk, INPUT_BLOCK, 3, Block(0xae87dff0, 0x0ff11b68, 0xa68ed5fb, 0x03fc1567),
              Block(0x975c66c1, 0xcb9f3fa8, 0xa93a28df, 0x8ee10f63),
              Block(0x88db34fb, 0x1f807678, 0xd3f833c2, 0x194a759e),
              Block(0x1c05f271, 0xa417e04f, 0xf921c5c1, 0x04701554));
  }

  lemma State5(key: seq<bv32>, rk: seq<bv32>)
    requires Given(key, rk)
    ensures EncState(AesOps(AES), rk, INPUT_BLOCK, 5) == Block(0xc357aae1, 0x1b45b7b0, 0xa2c7bd28, 0xa8dc99fa)
  {
    State4(key, rk);
    Key5(key, rk);
    Shift4();
    RoundStep(rk, INPUT_BLOCK, 4, Block(0x6de1f148, 0x6fa54f92, 0x75f8eb53, 0x73b8518d),
              Block(0x1c05f271, 0xa417e04f, 0xf921c5c1, 0x04701554),
              Block(0x9cf0a620, 0x49fd59a3, 0x99518984, 0xf26be178),
              Block(0xc357aae1, 0x1b45b7b0, 0xa2c7bd28, 0xa8dc99fa));
  }

  lemma State6(key: seq<bv32>, rk: seq<bv32>)
    requires Given(key, rk)
    ensures EncState(AesOps(AES), rk, INPUT_BLOCK, 6) == Block(0x7f074143, 0xcb4e243e, 0xc10c815d, 0x8375d54c)
  {
    State5(key, rk);
    Key6(key, rk);
    Shift5();
    RoundStep(rk, INPUT_BLOCK, 5, Block(0xc656827f, 0xc9a79917, 0x6f294cec, 0x6cd5598b),
              Block(0xc357aae1, 0x1b45b7b0, 0xa2c7bd28, 0xa8dc99fa),
              Block(0x2e6e7a2d, 0xafc6eef8, 0x3a86ace7, 0xc25ba934),
              Block(0x7f074143, 0xcb4e243e, 0xc10c815d, 0x8375d54c));
  }

  lemma State7(key: seq<bv32>, rk: seq<bv32>)
    requires Given(key, rk)
    ensures EncState(AesOps(AES), rk, INPUT_BLOCK, 7) == Block(0xd653a469, 0x6ca0bc0f, 0x5acaab5d, 0xb96c5e7d)
  {
    State6(key, rk);
    Key7(key, rk);
    Shift6();
    RoundStep(rk, INPUT_BLOCK, 6, Block(0x3de23a75, 0x524775e7, 0x27bf9eb4, 0x5407cf39),
              Block(0x7f074143, 0xcb4e243e, 0xc10c815d, 0x8375d54c),
              Block(0xd22f0c29, 0x1ffe031a, 0x789d83b2, 0xecc5364c),
              Block(0xd653a469, 0x6ca0bc0f, 0x5acaab5d, 0xb96c5e7d));
  }

  lemma State8(key: seq<bv32>, rk: seq<bv32>)
    requires Given(key, rk)
    ensures EncState(AesOps(AES), rk, INPUT_BLOCK, 8) == Block(0x5aa85839, 0x5fd28d7d, 0x05e1a388, 0x68f3b9c5)
  {
    State7(key, rk);
    Key8(key, rk);
    Shift7();
    RoundStep(rk, INPUT_BLOCK, 7, Block(0x0bdc905f, 0xc27b0948, 0xad5245a4, 0xc1871c2f),
              Block(0xd653a469, 0x6ca0bc0f, 0x5acaab5d, 0xb96c5e7d),
              Block(0xf6e062ff, 0x507458f9, 0xbe504976, 0x56ed654c),
              Block(0x5aa85839, 0x5fd28d7d, 0x05e1a388, 0x68f3b9c5));
  }

  lemma State9(key: seq<bv32>, rk: seq<bv32>)
    requires Given(key, rk)
    ensures EncState(AesOps(AES), rk, INPUT_BLOCK, 9) == Block(0x4a824851, 0xc57e7e47, 0x643de50c, 0x2af3e8c9)
  {
    State8(key, rk);
    Key9(key, rk);
    Shift8();
    RoundStep(rk, INPUT_BLOCK, 8, Block(0x45f5a660, 0x17b2d387, 0x300d4d33, 0x640a820a),
              Block(0x5aa85839, 0x5fd28d7d, 0x05e1a388, 0x68f3b9c5),
              Block(0xbeb50aa6, 0xcff85612, 0x6b0d6aff, 0x45c25dc4),
              Block(0x4a824851, 0xc57e7e47, 0x643de50c, 0x2af3e8c9));
  }

  lemma State10(key: seq<bv32>, rk: seq<bv32>)
    requires Given(key, rk)
    ensures EncState(AesOps(AES), rk, INPUT_BLOCK, 10) == Block(0xc14907f6, 0xca3b3aa0, 0x70e9aa31, 0x3b52b5ec)
  {
    State9(key, rk);
    Key10(key, rk);
    Shift9();
    RoundStep(rk, INPUT_BLOCK, 9, Block(0x7ccff71c, 0xbeb4fe54, 0x13e6bbf0, 0xd261a7df),
              Block(0x4a824851, 0xc57e7e47, 0x643de50c, 0x2af3e8c9),
              Block(0xd6f3d9dd, 0xa6279bd1, 0x430d52a0, 0xe513f3fe),
              Block(0xc14907f6, 0xca3b3aa0, 0x70e9aa31, 0x3b52b5ec));
  }

  lemma State11(key: seq<bv32>, rk: seq<bv32>)
    requires Given(key, rk)
    ensures EncState(AesOps(AES), rk, INPUT_BLOCK, 11) == Block(0x5f9c6abf, 0xbac634aa, 0x50409fa7, 0x66677653)
  {
    State10(key, rk);
    Key11(key, rk);
    Shift10();
    RoundStep(rk, INPUT_BLOCK, 10, Block(0xf01afafe, 0xe7a82979, 0xd7a5644a, 0xb3afe640),
              Block(0xc14907f6, 0xca3b3aa0, 0x70e9aa31, 0x3b52b5ec),
              Block(0x78e2acce, 0x741ed542, 0x5100c5e0, 0xe23b80c7),
              Block(0x5f9c6abf, 0xbac634aa, 0x50409fa7, 0x66677653));
  }

  lemma State12(key: seq<bv32>, rk: seq<bv32>)
    requires Given(key, rk)
    ensures EncState(AesOps(AES), rk, INPUT_BLOCK, 12) == Block(0x51660495, 0x43539503, 0x14fb86e4, 0x01922521)
  {
    State11(key, rk);
    Key12(key, rk);
    Shift11();
    RoundStep(rk, INPUT_BLOCK, 11, Block(0x2541fe71, 0x9bf50025, 0x8813bbd5, 0x5a721c0a),
              Block(0x5f9c6abf, 0xbac634aa, 0x50409fa7, 0x66677653),
              Block(0xcfb4dbed, 0xf4093808, 0x538502ac, 0x33de185c),
              Block(0x51660495, 0x43539503, 0x14fb86e4, 0x01922521));
  }

  lemma State13(key: seq<bv32>, rk: seq<bv32>)
    requires Given(key, rk)
    ensures EncState(AesOps(AES), rk, INPUT_BLOCK, 13) == Block(0x627bceb9, 0x999d5aaa, 0xc945ecf4, 0x23f56da5)
  {
    State12(key, rk);
    Key13(key, rk);
    Shift12();
    RoundStep(rk, INPUT_BLOCK, 12, Block(0x4e5a6699, 0xa9f24fe0, 0x7e572baa, 0xcdf8cdea),
              Block(0x51660495, 0x43539503, 0x14fb86e4, 0x01922521),
              Block(0xd1ed44fd, 0x1a0f3f2a, 0xfa4ff27b, 0x7c332a69),
              Block(0x627bceb9, 0x999d5aaa, 0xc945ecf4, 0x23f56da5));
  }

  lemma LastBytes()
    ensures BytesOf(AddKey(Block(0xaa5ece06, 0xee6e3c56, 0xdde68bac, 0x2621bebf),
                           Block(0x24fc79cc, 0xbf0979e9, 0x371ac23c, 0x6d68de36))) == OUTPUT
  {
  }

  /** FIPS 197, appendix C.3. */
  lemma Encrypted(key: seq<bv32>, rk: seq<bv32>)
    requires Given(key, rk)
    ensures EncBytes(AES, rk, 14, INPUT) == OUTPUT
  {
    State13(key, rk);
    Key14(key, rk);
    Shift13();
    LastBytes();
    InputWords();
    LastRound(rk, INPUT, 14, Block(0x24fc79cc, 0xbf0979e9, 0x371ac23c, 0x6d68de36),
              Block(0x627bceb9, 0x999d5aaa, 0xc945ecf4, 0x23f56da5),
              Block(0xaa5ece06, 0xee6e3c56, 0xdde68bac, 0x2621bebf), OUTPUT);
  }

  /** AES_set_encrypt_key and AES_encrypt on the example. */
  method EncryptExample() returns (out: seq<bv8>)
    ensures out == OUTPUT
  {
    var userKey := CountingKey(32);
    CountingWords8(userKey[..]);
    ghost var rk;
    AesLaws();
    out, rk := EncryptUnder(AES, userKey, 256, INPUT);
    Encrypted(KeyWords(userKey[..], 8), rk);
  }
}
