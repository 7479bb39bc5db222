/** AES_set_encrypt_key, AES_set_decrypt_key, AES_encrypt and AES_decrypt of aes.c, on the caller's key
    object and byte buffers. */
module AesKeys {
  import opened AesField
  import opened AesCipher
  import opened AesCode

  /** AES_KEY. */
  class AesKey {
    const rdKey: array<bv32>
    var rounds: nat

    ghost predicate Sized()
      reads this
    {
      rdKey.Length == 60
    }

    /** The number of rounds is one that the key set-up stores. */
    ghost predicate Ready()
      reads this
    {
      Sized() && (rounds == 10 || rounds == 12 || rounds == 14)
    }

    constructor ()
      ensures Sized() && fresh(rdKey) && rounds == 0
    {
      rdKey := new bv32[60](_ => 0);
      rounds := 0;
    }
  }

  predicate GoodBits(bits: int) { bits == 128 || bits == 192 || bits == 256 }

  /** The user key as words. */
  function KeyWords(k: seq<bv8>, nk: nat): (w: seq<bv32>)
    requires 4 * nk <= |k|
    ensures |w| == nk
  {
    seq(nk, i requires 0 <= i < nk => WordAt(k, 4 * i))
  }

  /** The object and its words, if there is one. */
  ghost function Frame(key: AesKey?): set<object> { if key == null then {} else {key, key.rdKey} }

  method LoadWords(rk: array<bv32>, k: array<bv8>, n: nat, ghost t: Tables, ghost nk: nat)
    requires n <= nk && 4 <= nk <= 8 && rk.Length == 60 && 4 * nk <= k.Length
    modifies rk
    ensures Filled(t, KeyWords(k[..], nk), rk[..], n)
  {
    ghost var key := KeyWords(k[..], nk);
    var i := 0;
    while i < n
      invariant 0 <= i <= n && Filled(t, key, rk[..], i)
    {
      Put(rk, i, Pack(k[4 * i], k[4 * i + 1], k[4 * i + 2], k[4 * i + 3]), t, key);
      i := i + 1;
    }
  }

  /** AES_set_encrypt_key: the schedule is the KeyExpansion of FIPS 197, section 5.2. */
  method SetEncryptKey(t: Tables, userKey: array?<bv8>, bits: int, key: AesKey?) returns (status: int)
    requires Laws(t) && (key != null ==> key.Sized())
    requires userKey != null && GoodBits(bits) ==> bits <= 8 * userKey.Length
    modifies Frame(key)
    ensures status == if userKey == null || key == null then -1 else if !GoodBits(bits) then -2 else 0
    ensures status == 0 ==> key.Ready() && key.rounds == Rounds(bits / 32)
                            && IsSchedule(t, KeyWords(userKey[..], bits / 32), key.rdKey[..])
    ensures status != 0 && key != null ==> key.rounds == old(key.rounds) && key.rdKey[..] == old(key.rdKey[..])
  {
    if userKey == null || key == null { return -1; }
    if bits != 128 && bits != 192 && bits != 256 { return -2; }
    key.rounds := if bits == 128 then 10 else if bits == 192 then 12 else 14;
    var rk := key.rdKey;
    ghost var w := KeyWords(userKey[..], bits / 32);
    LoadWords(rk, userKey, bits / 32, t, bits / 32);
    if bits == 128 {
      Expand128(t, rk, w);
    } else if bits == 192 {
      Expand192(t, rk, w);
    } else {
      Expand256(t, rk, w);
    }
    status := 0;
  }

  // ---------------------------------------------------------------- the inverse schedule

  /** rk with round key a replaced. */
  ghost predicate Stored(old_: seq<bv32>, rk: seq<bv32>, a: nat, b: Block) {
    && |rk| == |old_| && 4 * a + 4 <= |rk| && RoundKey(rk, a) == b
    && forall c: nat :: c != a && 4 * c + 4 <= |rk| ==> RoundKey(rk, c) == RoundKey(old_, c)
  }

  lemma StoredWords(old_: seq<bv32>, rk: seq<bv32>, a: nat, b: Block)
    requires |rk| == |old_| && 4 * a + 4 <= |rk| && RoundKey(rk, a) == b
    requires forall i :: 0 <= i < |rk| && !(4 * a <= i < 4 * a + 4) ==> rk[i] == old_[i]
    ensures Stored(old_, rk, a, b)
  {
  }

  method StoreBlock(rk: array<bv32>, a: nat, b: Block)
    requires 4 * a + 4 <= rk.Length
    modifies rk
    ensures Stored(old(rk[..]), rk[..], a, b)
  {
    rk[4 * a], rk[4 * a + 1], rk[4 * a + 2], rk[4 * a + 3] := b.w0, b.w1, b.w2, b.w3;
    StoredWords(old(rk[..]), rk[..], a, b);
  }

  ghost predicate Swapped(a: seq<bv32>, b: seq<bv32>, i: nat, j: nat) {
    && |b| == |a| && 4 * i + 4 <= |a| && 4 * j + 4 <= |a|
    && forall c: nat :: 4 * c + 4 <= |a| ==>
       RoundKey(b, c) == RoundKey(a, if c == i then j else if c == j then i else c)
  }

  method SwapBlocks(rk: array<bv32>, a: nat, b: nat)
    requires a != b && 4 * a + 4 <= rk.Length && 4 * b + 4 <= rk.Length
    modifies rk
    ensures Swapped(old(rk[..]), rk[..], a, b)
  {
    var i, j := 4 * a, 4 * b;
    var temp := Block(rk[i], rk[i + 1], rk[i + 2], rk[i + 3]);
    StoreBlock(rk, a, Block(rk[j], rk[j + 1], rk[j + 2], rk[j + 3]));
    assert RoundKey(rk[..], b) == old(RoundKey(rk[..], b));
    StoreBlock(rk, b, temp);
  }

  /** The round keys outside [i, nr - i] have been exchanged. */
  ghost predicate Mirrored(a: seq<bv32>, b: seq<bv32>, nr: nat, i: nat) {
    && |b| == |a| && 4 * nr + 4 <= |a|
    && forall c: nat :: c <= nr ==> RoundKey(b, c) == RoundKey(a, if i <= c <= nr - i then c else nr - c)
  }

  lemma MirroredNext(a: seq<bv32>, b: seq<bv32>, c: seq<bv32>, nr: nat, i: nat)
    requires Mirrored(a, b, nr, i) && 2 * i < nr && Swapped(b, c, i, nr - i)
    ensures Mirrored(a, c, nr, i + 1)
  {
  }

  /** The first loop of AES_set_decrypt_key. */
  method ReverseRoundKeys(rk: array<bv32>, nr: nat)
    requires 4 * nr + 4 <= rk.Length
    modifies rk
    ensures forall c: nat :: c <= nr ==> RoundKey(rk[..], c) == old(RoundKey(rk[..], nr - c))
  {
    var i, j := 0, nr;
    while i < j
      invariant 0 <= i && i + j == nr && i <= j + 1 && Mirrored(old(rk[..]), rk[..], nr, i)
    {
      ghost var before := rk[..];
      SwapBlocks(rk, i, j);
      MirroredNext(old(rk[..]), before, rk[..], nr, i);
      i, j := i + 1, j - 1;
    }
  }

  /** Td0[Te4[..] & 0xff] and so on: the S-boxes cancel and InvMixColumns remains. */
  method InvMixWord(t: Tables, w: bv32) returns (r: bv32)
    requires Laws(t)
    ensures r == InvMix(t, w)
  {
    Unpacked(t.s(B0(w)), t.s(B0(w)), t.s(B0(w)), t.s(B0(w)));
    Unpacked(t.s(B1(w)), t.s(B1(w)), t.s(B1(w)), t.s(B1(w)));
    Unpacked(t.s(B2(w)), t.s(B2(w)), t.s(B2(w)), t.s(B2(w)));
    Unpacked(t.s(B3(w)), t.s(B3(w)), t.s(B3(w)), t.s(B3(w)));
    r := Xor4(Td0(t, B3(Te4(t, B0(w)))), Td1(t, B3(Te4(t, B1(w)))), Td2(t, B3(Te4(t, B2(w)))),
              Td3(t, B3(Te4(t, B3(w)))));
    DecColumn(t, t.s(B0(w)), t.s(B1(w)), t.s(B2(w)), t.s(B3(w)));
    Repacked(w);
  }

  method InvMixBlock(t: Tables, k: Block) returns (r: Block)
    requires Laws(t)
    ensures r == InvMixColumns(t, k)
  {
    var w0 := InvMixWord(t, k.w0);
    var w1 := InvMixWord(t, k.w1);
    var w2 := InvMixWord(t, k.w2);
    var w3 := InvMixWord(t, k.w3);
    r := Block(w0, w1, w2, w3);
  }

  ghost predicate ImixIs(t: Tables, o: Ops) {
    forall k {:trigger InvMixColumns(t, k)} :: InvMixColumns(t, k) == o.imix(k)
  }

  /** One turn of the second loop of AES_set_decrypt_key. */
  method InvMixAt(t: Tables, ghost o: Ops, rk: array<bv32>, i: nat)
    requires Laws(t) && ImixIs(t, o) && 4 * i + 4 <= rk.Length
    modifies rk
    ensures Stored(old(rk[..]), rk[..], i, o.imix(RoundKey(old(rk[..]), i)))
  {
    var k := InvMixBlock(t, Block(rk[4 * i], rk[4 * i + 1], rk[4 * i + 2], rk[4 * i + 3]));
    StoreBlock(rk, i, k);
  }

  /** The second loop of AES_set_decrypt_key. */
  method InvMixMiddle(t: Tables, ghost o: Ops, rk: array<bv32>, nr: nat)
    requires Laws(t) && ImixIs(t, o) && nr >= 1 && 4 * nr + 4 <= rk.Length
    modifies rk
    ensures forall c: nat :: 0 < c < nr ==> RoundKey(rk[..], c) == o.imix(old(RoundKey(rk[..], c)))
    ensures RoundKey(rk[..], 0) == old(RoundKey(rk[..], 0)) && RoundKey(rk[..], nr) == old(RoundKey(rk[..], nr))
  {
    var i := 1;
    while i < nr
      invariant 1 <= i <= nr
      invariant forall c: nat :: 0 < c < i ==> RoundKey(rk[..], c) == o.imix(old(RoundKey(rk[..], c)))
      invariant forall c: nat :: (c == 0 || i <= c) && c <= nr ==> RoundKey(rk[..], c) == old(RoundKey(rk[..], c))
    {
      InvMixAt(t, o, rk, i);
      i := i + 1;
    }
  }

  /** Both loops of AES_set_decrypt_key. */
  method InvertSchedule(t: Tables, ghost o: Ops, rk: array<bv32>, nr: nat)
    requires Laws(t) && ImixIs(t, o) && nr >= 1 && 4 * nr + 4 <= rk.Length
    modifies rk
    ensures InverseSchedule(o, old(rk[..]), rk[..], nr)
  {
    ReverseRoundKeys(rk, nr);
    InvMixMiddle(t, o, rk, nr);
  }

  /** AES_set_decrypt_key: the schedule of the Equivalent Inverse Cipher, FIPS 197 section 5.3.5. */
  method SetDecryptKey(t: Tables, userKey: array?<bv8>, bits: int, key: AesKey?)
    returns (status: int, ghost rk: seq<bv32>)
    requires Laws(t) && (key != null ==> key.Sized())
    requires userKey != null && GoodBits(bits) ==> bits <= 8 * userKey.Length
    modifies Frame(key)
    ensures status == if userKey == null || key == null then -1 else if !GoodBits(bits) then -2 else 0
    ensures status == 0 ==> key.Ready() && key.rounds == Rounds(bits / 32)
                            && IsSchedule(t, KeyWords(userKey[..], bits / 32), rk)
                            && InverseSchedule(AesOps(t), rk, key.rdKey[..], key.rounds)
    ensures status != 0 && key != null ==> key.rounds == old(key.rounds) && key.rdKey[..] == old(key.rdKey[..])
  {
    status := SetEncryptKey(t, userKey, bits, key);
    rk := if key == null then [] else key.rdKey[..];
    if status < 0 { return; }
    InvertSchedule(t, AesOps(t), key.rdKey, key.rounds);
  }

  // ---------------------------------------------------------------- blocks of bytes

  /** AES_encrypt on one block of bytes, as a function of the schedule. */
  function EncBytes(t: Tables, rk: seq<bv32>, nr: nat, s: seq<bv8>): (r: seq<bv8>)
    requires nr >= 1 && 4 * nr + 4 <= |rk| && |s| == SIZE
    ensures |r| == SIZE
  {
    BytesOf(Cipher(AesOps(t), rk, nr, BlockOf(s)))
  }

  function DecBytes(t: Tables, rk: seq<bv32>, nr: nat, s: seq<bv8>): (r: seq<bv8>)
    requires nr >= 1 && 4 * nr + 4 <= |rk| && |s| == SIZE
    ensures |r| == SIZE
  {
    BytesOf(EqInvCipher(AesOps(t), rk, nr, BlockOf(s)))
  }

  /** The decryption key undoes the encryption key on every block of bytes. */
  lemma DecBytesUndoesEncBytes(t: Tables, rk: seq<bv32>, dk: seq<bv32>, nr: nat, s: seq<bv8>)
    requires Laws(t) && InverseSchedule(AesOps(t), rk, dk, nr) && |s| == SIZE
    ensures DecBytes(t, dk, nr, EncBytes(t, rk, nr, s)) == s
  {
    AesOpsInvertible(t);
    UndoneWith(AesOps(t), rk, dk, nr, s);
  }

  lemma UndoneWith(o: Ops, rk: seq<bv32>, dk: seq<bv32>, nr: nat, s: seq<bv8>)
    requires Invertible(o) && InverseSchedule(o, rk, dk, nr) && |s| == SIZE
    ensures BytesOf(EqInvCipher(o, dk, nr, BlockOf(BytesOf(Cipher(o, rk, nr, BlockOf(s)))))) == s
  {
    BlockOfBytesOf(Cipher(o, rk, nr, BlockOf(s)));
    EqInvCipherUndoesCipher(o, rk, dk, nr, BlockOf(s));
    BytesOfBlockOf(s);
  }

  method EncryptBytes(t: Tables, s: seq<bv8>, key: AesKey) returns (r: seq<bv8>)
    requires key.Ready() && |s| == SIZE
    ensures r == EncBytes(t, key.rdKey[..], key.rounds, s)
  {
    TablesForAes(t);
    var y := EncryptLoop(t, AesOps(t), key.rdKey[..], key.rounds, BlockOf(s));
    r := BytesOf(y);
  }

  method DecryptBytes(t: Tables, s: seq<bv8>, key: AesKey) returns (r: seq<bv8>)
    requires key.Ready() && |s| == SIZE
    ensures r == DecBytes(t, key.rdKey[..], key.rounds, s)
  {
    TablesForAes(t);
    var x := DecryptLoop(t, AesOps(t), key.rdKey[..], key.rounds, BlockOf(s));
    r := BytesOf(x);
  }

  /** Writes a block at position o of a buffer. */
  method PutBlock(out: array<bv8>, o: nat, s: seq<bv8>)
    requires |s| == SIZE && o + SIZE <= out.Length
    modifies out
    ensures out[..] == old(out[..o]) + s + old(out[o + SIZE..])
  {
    forall i | 0 <= i < SIZE { out[o + i] := s[i]; }
  }

  /** AES_encrypt; the input may overlap the output. */
  method Encrypt(t: Tables, inp: array<bv8>, i: nat, out: array<bv8>, o: nat, key: AesKey)
    requires key.Ready() && i + SIZE <= inp.Length && o + SIZE <= out.Length
    modifies out
    ensures out[..] ==
            old(out[..o]) + EncBytes(t, old(key.rdKey[..]), key.rounds, old(inp[i..i + SIZE])) + old(out[o + SIZE..])
  {
    var r := EncryptBytes(t, inp[i..i + SIZE], key);
    PutBlock(out, o, r);
  }

  /** AES_decrypt. */
  method Decrypt(t: Tables, inp: array<bv8>, i: nat, out: array<bv8>, o: nat, key: AesKey)
    requires key.Ready() && i + SIZE <= inp.Length && o + SIZE <= out.Length
    modifies out
    ensures out[..] ==
            old(out[..o]) + DecBytes(t, old(key.rdKey[..]), key.rounds, old(inp[i..i + SIZE])) + old(out[o + SIZE..])
  {
    var r := DecryptBytes(t, inp[i..i + SIZE], key);
    PutBlock(out, o, r);
  }
}
