/** The AES of aes.c as a whole, with its actual tables: decryption undoes encryption for every key size,
    key, iv and message. */
module AesRoundTrip {
  import opened AesField
  import opened AesCipher
  import opened AesCode
  import opened AesKeys
  import opened AesCbc
  import opened AesTables

  /** Only the words of the schedule matter. */
  lemma {:induction false} SameWordsSameState(o: Ops, rk: seq<bv32>, rk': seq<bv32>, x: Block, i: nat)
    requires 4 * i + 4 <= |rk| && 4 * i + 4 <= |rk'| && rk[..4 * i + 4] == rk'[..4 * i + 4]
    ensures EncState(o, rk, x, i) == EncState(o, rk', x, i)
  {
    SameRoundKey(rk, rk', i);
    if i > 0 {
      assert rk[..4 * i] == rk[..4 * i + 4][..4 * i] && rk'[..4 * i] == rk'[..4 * i + 4][..4 * i];
      SameWordsSameState(o, rk, rk', x, i - 1);
    }
  }

  lemma SameRoundKey(rk: seq<bv32>, rk': seq<bv32>, i: nat)
    requires 4 * i + 4 <= |rk| && 4 * i + 4 <= |rk'| && rk[..4 * i + 4] == rk'[..4 * i + 4]
    ensures RoundKey(rk, i) == RoundKey(rk', i)
  {
    var a, b := rk[..4 * i + 4], rk'[..4 * i + 4];
    assert RoundKey(rk, i) == RoundKey(a, i) && RoundKey(rk', i) == RoundKey(b, i);
  }

  lemma SameWordsSameCipher(o: Ops, rk: seq<bv32>, rk': seq<bv32>, nr: nat, x: Block)
    requires nr >= 1 && 4 * nr + 4 <= |rk| && 4 * nr + 4 <= |rk'| && rk[..4 * nr + 4] == rk'[..4 * nr + 4]
    ensures Cipher(o, rk, nr, x) == Cipher(o, rk', nr, x)
  {
    SameRoundKey(rk, rk', nr);
    assert rk[..4 * nr] == rk[..4 * nr + 4][..4 * nr] && rk'[..4 * nr] == rk'[..4 * nr + 4][..4 * nr];
    SameWordsSameState(o, rk, rk', x, nr - 1);
  }

  lemma SameSchedule(t: Tables, key: seq<bv32>, rk: seq<bv32>, rk': seq<bv32>)
    requires |key| >= 4 && IsSchedule(t, key, rk) && IsSchedule(t, key, rk')
    ensures var n := 4 * Rounds(|key|) + 4; rk[..n] == rk'[..n]
  {
  }

  /** For every key of 4, 6 or 8 words and every block, AES_decrypt undoes AES_encrypt. */
  lemma DecryptUndoesEncrypt(key: seq<bv32>, rk: seq<bv32>, rk': seq<bv32>, dk: seq<bv32>, s: seq<bv8>)
    requires |key| >= 4 && IsSchedule(AES, key, rk) && IsSchedule(AES, key, rk')
    requires InverseSchedule(AesOps(AES), rk', dk, Rounds(|key|)) && |s| == SIZE
    ensures DecBytes(AES, dk, Rounds(|key|), EncBytes(AES, rk, Rounds(|key|), s)) == s
  {
    AesLaws();
    SameSchedule(AES, key, rk, rk');
    SameWordsSameCipher(AesOps(AES), rk, rk', Rounds(|key|), BlockOf(s));
    DecBytesUndoesEncBytes(AES, rk', dk, Rounds(|key|), s);
  }

  /** The same for the maps that CBC chains. */
  lemma MapsUndo(t: Tables, rk: seq<bv32>, dk: seq<bv32>, nr: nat)
    requires nr >= 1 && 4 * nr + 4 <= |rk| && 4 * nr + 4 <= |dk|
    requires forall s :: |s| == SIZE ==> DecBytes(t, dk, nr, EncBytes(t, rk, nr, s)) == s
    ensures Undoes(DecWith(t, dk, nr), EncWith(t, rk, nr))
  {
  }

  lemma KeysUndo(key: seq<bv32>, ek: seq<bv32>, rk: seq<bv32>, dk: seq<bv32>)
    requires |key| >= 4 && IsSchedule(AES, key, ek) && IsSchedule(AES, key, rk)
    requires InverseSchedule(AesOps(AES), rk, dk, Rounds(|key|))
    ensures Undoes(DecWith(AES, dk, Rounds(|key|)), EncWith(AES, ek, Rounds(|key|)))
  {
    var nr := Rounds(|key|);
    forall s | |s| == SIZE ensures DecBytes(AES, dk, nr, EncBytes(AES, ek, nr, s)) == s {
      DecryptUndoesEncrypt(key, ek, rk, dk, s);
    }
    MapsUndo(AES, ek, dk, nr);
  }

  /** The two maps, as AES_cbc_encrypt uses them. */
  lemma MapsOf(key: seq<bv32>, ek: seq<bv32>, rk: seq<bv32>, dk: seq<bv32>)
    returns (e: Bytes -> Bytes, d: Bytes -> Bytes)
    requires |key| >= 4 && IsSchedule(AES, key, ek) && IsSchedule(AES, key, rk)
    requires InverseSchedule(AesOps(AES), rk, dk, Rounds(|key|))
    ensures OnBlocks(e) && OnBlocks(d) && Undoes(d, e)
    ensures EncryptsAs(AES, ek, Rounds(|key|), e) && DecryptsAs(AES, dk, Rounds(|key|), d)
  {
    KeysUndo(key, ek, rk, dk);
    e, d := EncWith(AES, ek, Rounds(|key|)), DecWith(AES, dk, Rounds(|key|));
    WithMaps(AES, ek, Rounds(|key|));
    WithMaps(AES, dk, Rounds(|key|));
  }

  /** Encrypts a message in place and decrypts it in place again, each direction with its own key object
      and a copy of the iv. */
  method ThereAndBack(userKey: array<bv8>, bits: int, iv: seq<bv8>, message: seq<bv8>)
    returns (status: int, back: seq<bv8>)
    requires |iv| == SIZE && (GoodBits(bits) ==> bits <= 8 * userKey.Length)
    ensures status == if GoodBits(bits) then 0 else -2
    ensures status == 0 ==> back == message
  {
    AesLaws();
    back := [];
    var encKey := new AesKey();
    status := SetEncryptKey(AES, userKey, bits, encKey);
    if status < 0 { return; }
    status, back := WithEncKey(userKey, bits, encKey, iv, message);
  }

  method WithEncKey(userKey: array<bv8>, bits: int, encKey: AesKey, iv: seq<bv8>, message: seq<bv8>)
    returns (status: int, back: seq<bv8>)
    requires GoodBits(bits) && bits <= 8 * userKey.Length && |iv| == SIZE && Laws(AES)
    requires encKey.Ready() && encKey.rounds == Rounds(bits / 32)
    requires IsSchedule(AES, KeyWords(userKey[..], bits / 32), encKey.rdKey[..])
    ensures status == 0 && back == message
  {
    var decKey := new AesKey();
    ghost var rk;
    status, rk := SetDecryptKey(AES, userKey, bits, decKey);
    back := Through(userKey, bits, encKey, decKey, rk, iv, message);
  }

  method Through(ghost userKey: array<bv8>, ghost bits: int, encKey: AesKey, decKey: AesKey, ghost rk: seq<bv32>,
                 iv: seq<bv8>, message: seq<bv8>) returns (back: seq<bv8>)
    requires GoodBits(bits) && bits <= 8 * userKey.Length && |iv| == SIZE
    requires encKey.Ready() && decKey.Ready() && encKey.rounds == decKey.rounds == Rounds(bits / 32)
    requires IsSchedule(AES, KeyWords(userKey[..], bits / 32), encKey.rdKey[..])
    requires IsSchedule(AES, KeyWords(userKey[..], bits / 32), rk)
    requires InverseSchedule(AesOps(AES), rk, decKey.rdKey[..], decKey.rounds)
    ensures back == message
  {
    ghost var e, d := MapsOf(KeyWords(userKey[..], bits / 32), encKey.rdKey[..], rk, decKey.rdKey[..]);
    var encIv, decIv;
    back, encIv, decIv := InPlace(AES, encKey, decKey, e, d, iv, message);
  }

  /** Both directions in place, each from the same iv; the message and the ivs they leave. */
  method InPlace(t: Tables, encKey: AesKey, decKey: AesKey, ghost e: Bytes -> Bytes, ghost d: Bytes -> Bytes,
                 iv: seq<bv8>, message: seq<bv8>) returns (back: seq<bv8>, encIv: seq<bv8>, decIv: seq<bv8>)
    requires encKey.Ready() && decKey.Ready() && |iv| == SIZE && OnBlocks(e) && OnBlocks(d) && Undoes(d, e)
    requires EncryptsAs(t, encKey.rdKey[..], encKey.rounds, e) && DecryptsAs(t, decKey.rdKey[..], decKey.rounds, d)
    ensures back == message
    ensures encIv == EncIv(e, iv, message) && decIv == DecIv(d, iv, CbcEnc(e, iv, message), |message|)
  {
    var n := |message|;
    var buf := new bv8[Padded(n)](i => 0);
    PutBytes(buf, 0, message);
    assert buf[..n] == message;
    var ivec := new bv8[SIZE](i requires 0 <= i < SIZE => iv[i]);
    assert ivec[..] == iv;
    EncryptInPlace(t, encKey, e, buf, n, ivec);
    encIv := ivec[..];
    SetIv(ivec, iv);
    CbcRoundTrip(e, d, iv, message);
    back := DecryptInPlace(t, decKey, d, buf, n, ivec);
    decIv := ivec[..];
  }

  method EncryptInPlace(t: Tables, key: AesKey, ghost e: Bytes -> Bytes, buf: array<bv8>, n: nat, ivec: array<bv8>)
    requires key.Ready() && ivec.Length == SIZE && ivec != buf && OnBlocks(e) &&
             EncryptsAs(t, key.rdKey[..], key.rounds, e)
    requires buf.Length == Padded(n)
    modifies buf, ivec
    ensures buf[..] == CbcEnc(e, old(ivec[..]), old(buf[..n])) && ivec[..] == EncIv(e, old(ivec[..]), old(buf[..n]))
  {
    EncryptCbc(t, buf, buf, n, key, ivec, e);
  }

  method DecryptInPlace(t: Tables, key: AesKey, ghost d: Bytes -> Bytes, buf: array<bv8>, n: nat, ivec: array<bv8>)
    returns (back: seq<bv8>)
    requires key.Ready() && ivec.Length == SIZE && ivec != buf && OnBlocks(d) &&
             DecryptsAs(t, key.rdKey[..], key.rounds, d)
    requires buf.Length == Padded(n)
    modifies buf, ivec
    ensures back == CbcDec(d, old(ivec[..]), old(buf[..]), n) && ivec[..] == DecIv(d, old(ivec[..]), old(buf[..]), n)
  {
    assert buf[..Padded(n)] == buf[..];
    DecryptCbc(t, buf, buf, n, key, ivec, d);
    back := buf[..n];
  }
}
