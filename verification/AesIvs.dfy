/** An input for which the two directions of AES_cbc_encrypt leave different ivs: the AES-128 example of FIPS 197,
    appendix C.1, with its plaintext as iv. */
module AesIvs {
  import opened AesField
  import opened AesCipher
  import opened AesCode
  import opened AesKeys
  import opened AesCbc
  import opened AesTables
  import opened AesTrace
  import E = AesExample128
  import R = AesRoundTrip

  /** A message of one zero byte leaves its iv to the cipher as it is. */
  lemma OneByte(e: Bytes -> Bytes, d: Bytes -> Bytes, x: Bytes, y: Bytes)
    requires OnBlocks(e) && OnBlocks(d) && |x| == SIZE == |y| && e(x) == y && d(y) == x
    ensures EncIv(e, x, [0]) == y && DecIv(d, x, CbcEnc(e, x, [0]), 1) == x
  {
    assert Chain([0], x) == [Xor(0, x[0])] + Chain([], x[1..]);
    assert Chain([0], x) == x && y[..SIZE] == y;
  }

  lemma EncMap(key: seq<bv32>, ek: seq<bv32>, e: Bytes -> Bytes)
    requires E.Given(key, ek) && EncryptsAs(AES, ek, 10, e)
    ensures e(INPUT) == E.OUTPUT
  {
    E.Encrypted(key, ek);
  }

  /** After a message of one byte the two directions leave different ivs. */
  lemma OneByteSplitsIvs(e: Bytes -> Bytes, d: Bytes -> Bytes, key: seq<bv32>, ek: seq<bv32>)
    requires E.Given(key, ek) && EncryptsAs(AES, ek, 10, e)
    requires OnBlocks(e) && OnBlocks(d) && Undoes(d, e)
    ensures DecIv(d, INPUT, CbcEnc(e, INPUT, [0]), 1) != EncIv(e, INPUT, [0])
  {
    EncMap(key, ek, e);
    OneByte(e, d, INPUT, E.OUTPUT);
    assert INPUT[0] != E.OUTPUT[0];
  }

  /** The key objects for both directions, and the maps they stand for. */
  method BothKeys(userKey: array<bv8>)
    returns (encKey: AesKey, decKey: AesKey, ghost e: Bytes -> Bytes, ghost d: Bytes -> Bytes)
    requires userKey.Length == 16
    ensures fresh(encKey) && encKey.Ready() && fresh(decKey) && decKey.Ready() && encKey.rounds == 10
    ensures IsSchedule(AES, KeyWords(userKey[..], 4), encKey.rdKey[..]) && OnBlocks(e) && OnBlocks(d) && Undoes(d, e)
    ensures EncryptsAs(AES, encKey.rdKey[..], encKey.rounds, e) && DecryptsAs(AES, decKey.rdKey[..], decKey.rounds, d)
  {
    AesLaws();
    encKey := new AesKey();
    var status := SetEncryptKey(AES, userKey, 128, encKey);
    decKey := new AesKey();
    ghost var rk;
    status, rk := SetDecryptKey(AES, userKey, 128, decKey);
    e, d := R.MapsOf(KeyWords(userKey[..], 4), encKey.rdKey[..], rk, decKey.rdKey[..]);
  }

  /** AES_cbc_encrypt on one byte, in both directions from the same iv. */
  method IvsDiffer() returns (encIv: seq<bv8>, decIv: seq<bv8>)
    ensures encIv != decIv
  {
    var userKey := CountingKey(16);
    CountingWords4(userKey[..]);
    var encKey, decKey, back;
    ghost var e, d;
    encKey, decKey, e, d := BothKeys(userKey);
    OneByteSplitsIvs(e, d, KeyWords(userKey[..], 4), encKey.rdKey[..]);
    back, encIv, decIv := R.InPlace(AES, encKey, decKey, e, d, INPUT, [0]);
  }
}
