/** Steps of a computation with the AES on given values: the words of a key schedule, the rounds, and the code run on
    a key of counting bytes. The examples of FIPS 197, appendix C, are put together from these. */
module AesTrace {
  import opened AesField
  import opened AesCipher
  import opened AesCode
  import opened AesKeys
  import opened AesTables

  /** The plaintext of all three examples. */
  const INPUT: seq<bv8> := [0x00, 0x11, 0x22, 0x33, 0x44, 0x55, 0x66, 0x77,
                            0x88, 0x99, 0xaa, 0xbb, 0xcc, 0xdd, 0xee, 0xff]

  const INPUT_BLOCK := Block(0x00112233, 0x44556677, 0x8899aabb, 0xccddeeff)

  lemma InputWords()
    ensures BlockOf(INPUT) == INPUT_BLOCK
  {
  }

  // ---------------------------------------------------------------- key schedules

  lemma GivenWords(t: Tables, key: seq<bv32>, rk: seq<bv32>)
    requires |key| >= 4 && IsSchedule(t, key, rk)
    ensures forall i :: 0 <= i < |key| ==> rk[i] == key[i]
  {
    assert forall i :: 0 <= i < |key| ==> ExpandedWord(t, key, i) == key[i];
  }

  /** The first word of group g, from the word before it and the one nk before it. */
  lemma HeadWord(t: Tables, key: seq<bv32>, rk: seq<bv32>, nk: nat, i: nat, g: nat)
    requires |key| == nk >= 4 && IsSchedule(t, key, rk) && nk <= i < 4 * Rounds(nk) + 4
    requires i % nk == 0 && i / nk == g
    ensures rk[i] == XorW(rk[i - nk], XorW(SubWord(t.s, RotWord(rk[i - 1])), Rcon(t, g)))
  {
    assert rk[i] == ExpandedWord(t, key, i) && rk[i - 1] == ExpandedWord(t, key, i - 1);
    assert rk[i - nk] == ExpandedWord(t, key, i - nk);
  }

  /** Word j of a group. */
  lemma LaterWord(t: Tables, key: seq<bv32>, rk: seq<bv32>, nk: nat, i: nat, j: nat)
    requires |key| == nk >= 4 && IsSchedule(t, key, rk) && nk <= i < 4 * Rounds(nk) + 4 && i % nk == j > 0
    ensures rk[i] == XorW(rk[i - nk], if nk > 6 && j == 4 then SubWord(t.s, rk[i - 1]) else rk[i - 1])
  {
    assert rk[i] == ExpandedWord(t, key, i) && rk[i - 1] == ExpandedWord(t, key, i - 1);
    assert rk[i - nk] == ExpandedWord(t, key, i - nk);
  }

  lemma HeadConstant(t: Tables, key: seq<bv32>, rk: seq<bv32>, nk: nat, i: nat, g: nat, c: bv32)
    requires |key| == nk >= 4 && IsSchedule(t, key, rk) && nk <= i < 4 * Rounds(nk) + 4
    requires i % nk == 0 && i / nk == g <= 10 && RconLaw(t) && t.rcon(g - 1) == c
    ensures rk[i] == XorW(rk[i - nk], XorW(SubWord(t.s, RotWord(rk[i - 1])), c))
  {
    HeadWord(t, key, rk, nk, i, g);
  }

  /** The same with the tables of aes.c. */
  lemma AesHead(key: seq<bv32>, rk: seq<bv32>, nk: nat, i: nat, g: nat, c: bv32)
    requires |key| == nk >= 4 && IsSchedule(AES, key, rk) && nk <= i < 4 * Rounds(nk) + 4
    requires i % nk == 0 && i / nk == g <= 10 && RconTable(g - 1) == c
    ensures rk[i] == XorW(rk[i - nk], XorW(SubWord(AES.s, RotWord(rk[i - 1])), c))
  {
    AesRconLaw();
    HeadConstant(AES, key, rk, nk, i, g, c);
  }

  // ---------------------------------------------------------------- rounds

  lemma RoundStep(rk: seq<bv32>, x0: Block, i: nat, k: Block, x: Block, y: Block, next: Block)
    requires 4 * i + 8 <= |rk| && RoundKey(rk, i + 1) == k && EncState(AesOps(AES), rk, x0, i) == x
    requires SubShift(AES, x) == y && AddKey(MixColumns(AES, y), k) == next
    ensures EncState(AesOps(AES), rk, x0, i + 1) == next
  {
  }

  lemma LastRound(rk: seq<bv32>, input: seq<bv8>, nr: nat, k: Block, x: Block, y: Block, output: seq<bv8>)
    requires |input| == SIZE && nr >= 1 && 4 * nr + 4 <= |rk| && RoundKey(rk, nr) == k
    requires EncState(AesOps(AES), rk, BlockOf(input), nr - 1) == x
    requires SubShift(AES, x) == y && BytesOf(AddKey(y, k)) == output
    ensures EncBytes(AES, rk, nr, input) == output
  {
  }

  // ---------------------------------------------------------------- the code

  /** The key 00 01 02 ... of the examples. */
  method CountingKey(n: nat) returns (userKey: array<bv8>)
    requires n <= 32
    ensures fresh(userKey) && userKey.Length == n && forall i :: 0 <= i < n ==> userKey[i] == i as bv8
  {
    userKey := new bv8[n](i requires 0 <= i < n => i as bv8);
  }

  /** AES_encrypt on a copy of the block. */
  method EncryptBlock(t: Tables, key: AesKey, input: seq<bv8>) returns (out: seq<bv8>)
    requires key.Ready() && |input| == SIZE
    ensures out == EncBytes(t, key.rdKey[..], key.rounds, input)
  {
    var buf := new bv8[SIZE](i requires 0 <= i < SIZE => input[i]);
    assert buf[0..SIZE] == input && buf[..0] == [] && buf[SIZE..] == [];
    Encrypt(t, buf, 0, buf, 0, key);
    out := buf[..];
  }

  /** AES_set_encrypt_key and AES_encrypt. */
  method EncryptUnder(t: Tables, userKey: array<bv8>, bits: int, input: seq<bv8>)
    returns (out: seq<bv8>, ghost rk: seq<bv32>)
    requires Laws(t) && GoodBits(bits) && bits <= 8 * userKey.Length && |input| == SIZE
    ensures IsSchedule(t, KeyWords(userKey[..], bits / 32), rk)
    ensures out == EncBytes(t, rk, Rounds(bits / 32), input)
  {
    var key := new AesKey();
    var status := SetEncryptKey(t, userKey, bits, key);
    rk := key.rdKey[..];
    out := EncryptBlock(t, key, input);
  }

  lemma CountingWords4(k: seq<bv8>)
    requires |k| == 16 && forall i :: 0 <= i < 16 ==> k[i] == i as bv8
    ensures KeyWords(k, 4)[0] == 0x00010203 && KeyWords(k, 4)[1] == 0x04050607
    ensures KeyWords(k, 4)[2] == 0x08090a0b && KeyWords(k, 4)[3] == 0x0c0d0e0f
  {
    assert WordAt(k, 0) == 0x00010203 && WordAt(k, 4) == 0x04050607;
    assert WordAt(k, 8) == 0x08090a0b && WordAt(k, 12) == 0x0c0d0e0f;
  }

  lemma CountingWords6(k: seq<bv8>)
    requires |k| == 24 && forall i :: 0 <= i < 24 ==> k[i] == i as bv8
    ensures KeyWords(k, 6)[0] == 0x00010203 && KeyWords(k, 6)[1] == 0x04050607
    ensures KeyWords(k, 6)[2] == 0x08090a0b && KeyWords(k, 6)[3] == 0x0c0d0e0f
    ensures KeyWords(k, 6)[4] == 0x10111213 && KeyWords(k, 6)[5] == 0x14151617
  {
    assert WordAt(k, 0) == 0x00010203 && WordAt(k, 4) == 0x04050607;
    assert WordAt(k, 8) == 0x08090a0b && WordAt(k, 12) == 0x0c0d0e0f;
    assert WordAt(k, 16) == 0x10111213 && WordAt(k, 20) == 0x14151617;
  }

  lemma CountingWords8(k: seq<bv8>)
    requires |k| == 32 && forall i :: 0 <= i < 32 ==> k[i] == i as bv8
    ensures KeyWords(k, 8)[0] == 0x00010203 && KeyWords(k, 8)[1] == 0x04050607
    ensures KeyWords(k, 8)[2] == 0x08090a0b && KeyWords(k, 8)[3] == 0x0c0d0e0f
    ensures KeyWords(k, 8)[4] == 0x10111213 && KeyWords(k, 8)[5] == 0x14151617
    ensures KeyWords(k, 8)[6] == 0x18191a1b && KeyWords(k, 8)[7] == 0x1c1d1e1f
  {
    assert WordAt(k, 0) == 0x00010203 && WordAt(k, 4) == 0x04050607;
    assert WordAt(k, 8) == 0x08090a0b && WordAt(k, 12) == 0x0c0d0e0f;
    assert WordAt(k, 16) == 0x10111213 && WordAt(k, 20) == 0x14151617;
    assert WordAt(k, 24) == 0x18191a1b && WordAt(k, 28) == 0x1c1d1e1f;
  }
}
