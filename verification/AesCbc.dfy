/** AES_cbc_encrypt of aes.c: cipher block chaining (NIST SP 800-38A, section 6.2) over any block cipher,
    with the zero-padded last block that aes.c adds. */
module AesCbc {
  import opened AesField
  import opened AesCode
  import opened AesKeys
  import opened AesCipher

  type Bytes = seq<bv8>

  /** A map from blocks to blocks. */
  ghost predicate OnBlocks(e: Bytes -> Bytes) { forall s {:trigger e(s)} :: |s| == SIZE ==> |e(s)| == SIZE }

  ghost predicate Undoes(d: Bytes -> Bytes, e: Bytes -> Bytes) {
    forall s {:trigger e(s)} :: |s| == SIZE ==> d(e(s)) == s
  }

  /** in[n] ^ ivec[n], with the bytes of ivec alone past the end of a short input. */
  function Chain(s: Bytes, iv: Bytes): (r: Bytes)
    requires |s| <= |iv|
    ensures |r| == |iv|
  {
    if s == [] then iv else [Xor(s[0], iv[0])] + Chain(s[1..], iv[1..])
  }

  lemma {:induction false} ChainAt(s: Bytes, iv: Bytes, i: nat)
    requires |s| <= |iv| && i < |iv|
    ensures Chain(s, iv)[i] == if i < |s| then Xor(s[i], iv[i]) else iv[i]
  {
    if s != [] && i > 0 { ChainAt(s[1..], iv[1..], i - 1); }
  }

  lemma ChainTwice(s: Bytes, iv: Bytes)
    requires |s| <= |iv|
    ensures Chain(Chain(s, iv), iv)[..|s|] == s
  {
    forall i | 0 <= i < |s| ensures Chain(Chain(s, iv), iv)[i] == s[i] {
      ChainAt(s, iv, i);
      ChainAt(Chain(s, iv), iv, i);
      Assoc(s[i], iv[i], iv[i]);
      Same(iv[i]);
      Zero(s[i]);
    }
  }

  /** A whole number of blocks. */
  predicate Whole(n: nat) { n == 0 || (n >= SIZE && Whole(n - SIZE)) }

  /** The bytes that the ciphertext of n bytes occupies. */
  function Padded(n: nat): (r: nat)
    ensures n <= r < n + SIZE
  {
    if n == 0 then 0 else if n < SIZE then SIZE else SIZE + Padded(n - SIZE)
  }

  /** n bytes, rounded up to a multiple of the block size. */
  lemma {:induction false} PaddedIs(n: nat)
    ensures Padded(n) % SIZE == 0 && (Whole(n) <==> n % SIZE == 0)
  {
    if n >= SIZE { PaddedIs(n - SIZE); }
  }

  lemma {:induction false} PaddedAdd(m: nat, n: nat)
    requires Whole(m)
    ensures Padded(m) == m && Padded(m + n) == m + Padded(n) && (Whole(n) ==> Whole(m + n))
  {
    if m > 0 { PaddedAdd(m - SIZE, n); }
  }

  ghost function CbcEnc(e: Bytes -> Bytes, iv: Bytes, s: Bytes): (r: Bytes)
    requires OnBlocks(e) && |iv| == SIZE
    ensures |r| == Padded(|s|)
    decreases |s|
  {
    if s == [] then []
    else if |s| < SIZE then e(Chain(s, iv))
    else
      var c := e(Chain(s[..SIZE], iv));
      c + CbcEnc(e, c, s[SIZE..])
  }

  /** The iv that encryption leaves behind. */
  ghost function EncIv(e: Bytes -> Bytes, iv: Bytes, s: Bytes): (r: Bytes)
    requires OnBlocks(e) && |iv| == SIZE
    ensures |r| == SIZE
    decreases |s|
  {
    if s == [] then iv
    else if |s| < SIZE then e(Chain(s, iv))
    else EncIv(e, e(Chain(s[..SIZE], iv)), s[SIZE..])
  }

  /** The first n bytes of plaintext. */
  ghost function CbcDec(d: Bytes -> Bytes, iv: Bytes, c: Bytes, n: nat): (r: Bytes)
    requires OnBlocks(d) && |iv| == SIZE && Padded(n) <= |c|
    ensures |r| == n
    decreases n
  {
    if n == 0 then []
    else if n < SIZE then Chain(d(c[..SIZE]), iv)[..n]
    else Chain(d(c[..SIZE]), iv) + CbcDec(d, c[..SIZE], c[SIZE..], n - SIZE)
  }

  /** The iv that decryption leaves behind: after a short last block it is that block decrypted. */
  ghost function DecIv(d: Bytes -> Bytes, iv: Bytes, c: Bytes, n: nat): (r: Bytes)
    requires OnBlocks(d) && |iv| == SIZE && Padded(n) <= |c|
    ensures |r| == SIZE
    decreases n
  {
    if n == 0 then iv
    else if n < SIZE then d(c[..SIZE])
    else DecIv(d, c[..SIZE], c[SIZE..], n - SIZE)
  }

  // ---------------------------------------------------------------- block by block

  /** Block j of a message; the last one may be short. */
  function BlockAt(s: Bytes, j: nat): (r: Bytes)
    ensures |r| <= SIZE
    ensures SIZE * (j + 1) <= |s| ==> |r| == SIZE
    decreases j
  {
    if j > 0 then (if |s| < SIZE then [] else BlockAt(s[SIZE..], j - 1))
    else if |s| < SIZE then s else s[..SIZE]
  }

  lemma FirstOf(c: Bytes, r: Bytes, j: nat)
    requires |c| == SIZE
    ensures BlockAt(c + r, 0) == c && BlockAt(c + r, j + 1) == BlockAt(r, j)
  {
    assert (c + r)[..SIZE] == c && (c + r)[SIZE..] == r;
  }

  /** What block j is chained with: the ciphertext block before it, or the iv. */
  function Before(iv: Bytes, c: Bytes, j: nat): Bytes { if j == 0 then iv else BlockAt(c, j - 1) }

  /** Ciphertext block j is the cipher of plaintext block j chained with the one before (NIST SP 800-38A, section
      6.2); the iv left behind is the last ciphertext block. */
  lemma {:induction false} EncBlock(e: Bytes -> Bytes, iv: Bytes, s: Bytes, j: nat)
    requires OnBlocks(e) && |iv| == SIZE && SIZE * j < |s|
    ensures var c := CbcEnc(e, iv, s);
            && |Before(iv, c, j)| == SIZE
            && BlockAt(c, j) == e(Chain(BlockAt(s, j), Before(iv, c, j)))
            && (SIZE * (j + 1) >= |s| ==> EncIv(e, iv, s) == BlockAt(c, j))
    decreases j
  {
    if |s| >= SIZE {
      var c := e(Chain(s[..SIZE], iv));
      FirstOf(c, CbcEnc(e, c, s[SIZE..]), if j == 0 then 0 else j - 1);
      if j > 0 {
        EncBlock(e, c, s[SIZE..], j - 1);
        if j > 1 { FirstOf(c, CbcEnc(e, c, s[SIZE..]), j - 2); }
      }
    }
  }

  /** Plaintext block j is the decryption of ciphertext block j chained with the one before, cut to what is asked
      for. */
  lemma {:induction false} DecBlock(d: Bytes -> Bytes, iv: Bytes, c: Bytes, n: nat, j: nat)
    requires OnBlocks(d) && |iv| == SIZE && Padded(n) <= |c| && SIZE * j < n
    ensures var p := BlockAt(CbcDec(d, iv, c, n), j);
            && |Before(iv, c, j)| == SIZE == |BlockAt(c, j)|
            && |p| == (if n < SIZE * (j + 1) then n - SIZE * j else SIZE)
            && p == Chain(d(BlockAt(c, j)), Before(iv, c, j))[..|p|]
    decreases j
  {
    if n >= SIZE {
      var p, q := Chain(d(c[..SIZE]), iv), CbcDec(d, c[..SIZE], c[SIZE..], n - SIZE);
      FirstOf(p, q, if j == 0 then 0 else j - 1);
      if j > 0 { DecBlock(d, c[..SIZE], c[SIZE..], n - SIZE, j - 1); }
    }
  }

  // ---------------------------------------------------------------- laws

  lemma DecFront(d: Bytes -> Bytes, iv: Bytes, c: Bytes, rest: Bytes, n: nat)
    requires OnBlocks(d) && |iv| == SIZE == |c| && Padded(n) <= |rest|
    ensures Padded(SIZE + n) == SIZE + Padded(n)
    ensures CbcDec(d, iv, c + rest, SIZE + n) == Chain(d(c), iv) + CbcDec(d, c, rest, n)
    ensures DecIv(d, iv, c + rest, SIZE + n) == DecIv(d, c, rest, n)
  {
    assert (c + rest)[..SIZE] == c && (c + rest)[SIZE..] == rest;
  }

  lemma ChainBlock(s: Bytes, iv: Bytes)
    requires |s| == |iv| == SIZE
    ensures Chain(Chain(s, iv), iv) == s
  {
    ChainTwice(s, iv);
    assert Chain(Chain(s, iv), iv)[..SIZE] == Chain(Chain(s, iv), iv);
  }

  /** Decryption takes off the first block. */
  lemma TakeOff(d: Bytes -> Bytes, iv: Bytes, c: Bytes, rest: Bytes, n: nat)
    requires OnBlocks(d) && |iv| == SIZE == |c| && n >= SIZE && Padded(n - SIZE) <= |rest| && Padded(n) <= |c + rest|
    ensures CbcDec(d, iv, c + rest, n) == Chain(d(c), iv) + CbcDec(d, c, rest, n - SIZE)
    ensures DecIv(d, iv, c + rest, n) == DecIv(d, c, rest, n - SIZE)
  {
    DecFront(d, iv, c, rest, n - SIZE);
  }

  lemma RoundTripStep(d: Bytes -> Bytes, iv: Bytes, x: Bytes, y: Bytes, c: Bytes, rest: Bytes)
    requires OnBlocks(d) && |iv| == SIZE == |c| == |x| && Padded(|y|) <= |rest| && Padded(SIZE + |y|) <= |c + rest|
    requires d(c) == Chain(x, iv) && CbcDec(d, c, rest, |y|) == y
    ensures CbcDec(d, iv, c + rest, SIZE + |y|) == x + y
  {
    DecFront(d, iv, c, rest, |y|);
    ChainBlock(x, iv);
  }

  /** Encryption takes off the first block. */
  lemma EncFront(e: Bytes -> Bytes, iv: Bytes, s: Bytes, c: Bytes)
    requires OnBlocks(e) && |iv| == SIZE && |s| >= SIZE && c == e(Chain(s[..SIZE], iv))
    ensures CbcEnc(e, iv, s) == c + CbcEnc(e, c, s[SIZE..]) && EncIv(e, iv, s) == EncIv(e, c, s[SIZE..])
    ensures Padded(|s|) == SIZE + Padded(|s| - SIZE)
  {
  }

  /** Decrypting the padded ciphertext returns the input, for every length and iv. */
  lemma {:induction false} CbcRoundTrip(e: Bytes -> Bytes, d: Bytes -> Bytes, iv: Bytes, s: Bytes)
    requires OnBlocks(e) && OnBlocks(d) && Undoes(d, e) && |iv| == SIZE
    ensures CbcDec(d, iv, CbcEnc(e, iv, s), |s|) == s
    decreases |s|
  {
    if s == [] {
    } else if |s| < SIZE {
      RoundTripShort(e, d, iv, s);
    } else {
      var c := e(Chain(s[..SIZE], iv));
      CbcRoundTrip(e, d, c, s[SIZE..]);
      EncFront(e, iv, s, c);
      RoundTripStep(d, iv, s[..SIZE], s[SIZE..], c, CbcEnc(e, c, s[SIZE..]));
      assert s == s[..SIZE] + s[SIZE..];
    }
  }

  lemma RoundTripShort(e: Bytes -> Bytes, d: Bytes -> Bytes, iv: Bytes, s: Bytes)
    requires OnBlocks(e) && OnBlocks(d) && Undoes(d, e) && |iv| == SIZE && 0 < |s| < SIZE
    ensures CbcDec(d, iv, CbcEnc(e, iv, s), |s|) == s
  {
    var c := e(Chain(s, iv));
    assert c[..SIZE] == c;
    ChainTwice(s, iv);
  }

  /** The input to the block cipher for the last, short block. */
  ghost function LastInput(e: Bytes -> Bytes, iv: Bytes, s: Bytes): (r: Bytes)
    requires OnBlocks(e) && |iv| == SIZE && !Whole(|s|)
    ensures |r| == SIZE
    decreases |s|
  {
    if |s| < SIZE then Chain(s, iv) else LastInput(e, e(Chain(s[..SIZE], iv)), s[SIZE..])
  }

  /** Both directions leave the same iv exactly for whole blocks, or when the cipher maps the last
      short block to itself. */
  lemma {:induction false} SameIv(e: Bytes -> Bytes, d: Bytes -> Bytes, iv: Bytes, s: Bytes)
    requires OnBlocks(e) && OnBlocks(d) && Undoes(d, e) && |iv| == SIZE
    ensures DecIv(d, iv, CbcEnc(e, iv, s), |s|) == EncIv(e, iv, s) <==>
            (Whole(|s|) || e(LastInput(e, iv, s)) == LastInput(e, iv, s))
    decreases |s|
  {
    if s == [] {
    } else if |s| < SIZE {
      SameIvShort(e, d, iv, s);
    } else {
      var c := e(Chain(s[..SIZE], iv));
      SameIv(e, d, c, s[SIZE..]);
      EncFront(e, iv, s, c);
      TakeOff(d, iv, c, CbcEnc(e, c, s[SIZE..]), |s|);
    }
  }

  lemma SameIvShort(e: Bytes -> Bytes, d: Bytes -> Bytes, iv: Bytes, s: Bytes)
    requires OnBlocks(e) && OnBlocks(d) && Undoes(d, e) && |iv| == SIZE && 0 < |s| < SIZE
    ensures DecIv(d, iv, CbcEnc(e, iv, s), |s|) == Chain(s, iv) == LastInput(e, iv, s)
    ensures EncIv(e, iv, s) == e(Chain(s, iv))
  {
    var c := e(Chain(s, iv));
    assert c[..SIZE] == c;
  }

  /** Splitting a call at a block boundary and carrying the iv over gives the same ciphertext. */
  lemma {:induction false} SplitEnc(e: Bytes -> Bytes, iv: Bytes, a: Bytes, b: Bytes)
    requires OnBlocks(e) && |iv| == SIZE && Whole(|a|)
    ensures CbcEnc(e, iv, a + b) == CbcEnc(e, iv, a) + CbcEnc(e, EncIv(e, iv, a), b)
    ensures EncIv(e, iv, a + b) == EncIv(e, EncIv(e, iv, a), b)
    decreases |a|
  {
    if a == [] {
      assert a + b == b;
    } else {
      var c := e(Chain(a[..SIZE], iv));
      assert (a + b)[..SIZE] == a[..SIZE] && (a + b)[SIZE..] == a[SIZE..] + b;
      SplitEnc(e, c, a[SIZE..], b);
      EncFront(e, iv, a, c);
      EncFront(e, iv, a + b, c);
      Regroup(c, CbcEnc(e, c, a[SIZE..]), CbcEnc(e, EncIv(e, c, a[SIZE..]), b));
    }
  }

  /** The same for decryption. */
  lemma {:induction false} SplitDec(d: Bytes -> Bytes, iv: Bytes, a: Bytes, b: Bytes, n: nat)
    requires OnBlocks(d) && |iv| == SIZE && Whole(|a|) && Padded(n) <= |b|
    requires Padded(|a|) <= |a| && Padded(|a| + n) <= |a| + |b|
    ensures CbcDec(d, iv, a + b, |a| + n) == CbcDec(d, iv, a, |a|) + CbcDec(d, DecIv(d, iv, a, |a|), b, n)
    ensures DecIv(d, iv, a + b, |a| + n) == DecIv(d, DecIv(d, iv, a, |a|), b, n)
    decreases |a|
  {
    if a == [] {
      SplitDecNone(d, iv, b, n);
      assert a + b == b;
    } else {
      var c, x := a[..SIZE], a[SIZE..];
      PaddedAdd(|x|, n);
      SplitDec(d, c, x, b, n);
      assert a == c + x;
      SplitDecStep(d, iv, a, c, x, b, n);
    }
  }

  lemma SplitDecNone(d: Bytes -> Bytes, iv: Bytes, b: Bytes, n: nat)
    requires OnBlocks(d) && |iv| == SIZE && Padded(n) <= |b|
    ensures CbcDec(d, iv, b, n) == CbcDec(d, iv, [], 0) + CbcDec(d, DecIv(d, iv, [], 0), b, n)
    ensures DecIv(d, iv, [], 0) == iv
  {
  }

  lemma SplitDecStep(d: Bytes -> Bytes, iv: Bytes, a: Bytes, c: Bytes, x: Bytes, b: Bytes, n: nat)
    requires OnBlocks(d) && |iv| == SIZE == |c| && a == c + x && Whole(|x|) && Padded(n) <= |b|
    requires Padded(|x|) <= |x| && Padded(|x| + n) <= |x| + |b|
    requires CbcDec(d, c, x + b, |x| + n) == CbcDec(d, c, x, |x|) + CbcDec(d, DecIv(d, c, x, |x|), b, n)
    requires DecIv(d, c, x + b, |x| + n) == DecIv(d, DecIv(d, c, x, |x|), b, n)
    ensures Padded(|a|) <= |a| && Padded(|a| + n) <= |a| + |b|
    ensures CbcDec(d, iv, a + b, |a| + n) == CbcDec(d, iv, a, |a|) + CbcDec(d, DecIv(d, iv, a, |a|), b, n)
    ensures DecIv(d, iv, a + b, |a| + n) == DecIv(d, DecIv(d, iv, a, |a|), b, n)
  {
    SplitDecCons(d, iv, c, x, b, n);
    Regroup(Chain(d(c), iv), CbcDec(d, c, x, |x|), CbcDec(d, DecIv(d, c, x, |x|), b, n));
  }

  lemma Regroup(x: Bytes, y: Bytes, z: Bytes)
    ensures x + (y + z) == (x + y) + z
  {
  }

  lemma SplitDecCons(d: Bytes -> Bytes, iv: Bytes, c: Bytes, x: Bytes, b: Bytes, n: nat)
    requires OnBlocks(d) && |iv| == SIZE == |c| && Whole(|x|) && Padded(n) <= |b|
    requires Padded(|x|) <= |x| && Padded(|x| + n) <= |x| + |b|
    ensures var a := c + x;
            && Padded(|a|) <= |a| && Padded(|a| + n) <= |a| + |b|
            && CbcDec(d, iv, a, |a|) == Chain(d(c), iv) + CbcDec(d, c, x, |x|)
            && DecIv(d, iv, a, |a|) == DecIv(d, c, x, |x|)
            && CbcDec(d, iv, a + b, |a| + n) == Chain(d(c), iv) + CbcDec(d, c, x + b, |x| + n)
            && DecIv(d, iv, a + b, |a| + n) == DecIv(d, c, x + b, |x| + n)
  {
    DecFront(d, iv, c, x, |x|);
    DecFront(d, iv, c, x + b, |x| + n);
    assert (c + x) + b == c + (x + b);
  }

  // ---------------------------------------------------------------- the code

  /** memcpy into ivec. */
  method SetIv(ivec: array<bv8>, s: Bytes)
    requires ivec.Length == SIZE == |s|
    modifies ivec
    ensures ivec[..] == s
  {
    forall i | 0 <= i < SIZE { ivec[i] := s[i]; }
  }

  /** The loops that xor the input with ivec into tmp. */
  method ChainBytes(s: Bytes, iv: Bytes) returns (r: Bytes)
    requires |s| <= SIZE && |iv| == SIZE
    ensures r == Chain(s, iv)
  {
    r := [];
    var n := 0;
    while n < |s|
      invariant 0 <= n <= |s| && |r| == n && forall i :: 0 <= i < n ==> r[i] == Chain(s, iv)[i]
    {
      ChainAt(s, iv, n);
      r := r + [Xor(s[n], iv[n])];
      n := n + 1;
    }
    while n < SIZE
      invariant |s| <= n <= SIZE && |r| == n && forall i :: 0 <= i < n ==> r[i] == Chain(s, iv)[i]
    {
      ChainAt(s, iv, n);
      r := r + [iv[n]];
      n := n + 1;
    }
  }

  /** AES_encrypt and AES_decrypt under a key, as total maps on byte strings. */
  ghost function EncWith(t: Tables, rk: seq<bv32>, nr: nat): Bytes -> Bytes
    requires nr >= 1 && 4 * nr + 4 <= |rk|
  {
    s => if |s| == SIZE then EncBytes(t, rk, nr, s) else s
  }

  ghost function DecWith(t: Tables, rk: seq<bv32>, nr: nat): Bytes -> Bytes
    requires nr >= 1 && 4 * nr + 4 <= |rk|
  {
    s => if |s| == SIZE then DecBytes(t, rk, nr, s) else s
  }

  /** e is what AES_encrypt does under the key, on blocks. */
  ghost predicate EncryptsAs(t: Tables, rk: seq<bv32>, nr: nat, e: Bytes -> Bytes) {
    && nr >= 1 && 4 * nr + 4 <= |rk|
    && forall s {:trigger EncBytes(t, rk, nr, s)} :: |s| == SIZE ==> EncBytes(t, rk, nr, s) == e(s)
  }

  ghost predicate DecryptsAs(t: Tables, rk: seq<bv32>, nr: nat, d: Bytes -> Bytes) {
    && nr >= 1 && 4 * nr + 4 <= |rk|
    && forall s {:trigger DecBytes(t, rk, nr, s)} :: |s| == SIZE ==> DecBytes(t, rk, nr, s) == d(s)
  }

  /** One block through AES_encrypt, in the terms of the map. */
  method EncOne(t: Tables, s: Bytes, key: AesKey, ghost e: Bytes -> Bytes) returns (r: Bytes)
    requires key.Ready() && |s| == SIZE && EncryptsAs(t, key.rdKey[..], key.rounds, e)
    ensures r == e(s) && |r| == SIZE
  {
    r := EncryptBytes(t, s, key);
  }

  method DecOne(t: Tables, s: Bytes, key: AesKey, ghost d: Bytes -> Bytes) returns (r: Bytes)
    requires key.Ready() && |s| == SIZE && DecryptsAs(t, key.rdKey[..], key.rounds, d)
    ensures r == d(s) && |r| == SIZE
  {
    r := DecryptBytes(t, s, key);
  }

  /** The buffer with s written at o. */
  function Patched(buf: Bytes, o: nat, s: Bytes): (r: Bytes)
    requires o + |s| <= |buf|
    ensures |r| == |buf|
  {
    buf[..o] + s + buf[o + |s|..]
  }

  lemma PatchedMore(buf: Bytes, done: Bytes, s: Bytes)
    requires |done| + |s| <= |buf|
    ensures Patched(Patched(buf, 0, done), |done|, s) == Patched(buf, 0, done + s)
  {
  }

  method PutBytes(out: array<bv8>, o: nat, s: Bytes)
    requires o + |s| <= out.Length
    modifies out
    ensures out[..] == Patched(old(out[..]), o, s)
  {
    forall i | 0 <= i < |s| { out[o + i] := s[i]; }
  }

  /** The state of the encryption loop after pos bytes. */
  ghost predicate EncSoFar(e: Bytes -> Bytes, iv: Bytes, src: Bytes, was: Bytes, pos: nat, out: Bytes, cur: Bytes)
    requires OnBlocks(e) && |iv| == SIZE
  {
    && pos <= |src| && Whole(pos) && pos <= |was| && |cur| == SIZE && Padded(pos) <= pos
    && out == Patched(was, 0, CbcEnc(e, iv, src[..pos])) && cur == EncIv(e, iv, src[..pos])
  }

  /** One more block, a full or the last short one, after whole blocks. */
  lemma AppendBlock(e: Bytes -> Bytes, iv: Bytes, a: Bytes, b: Bytes)
    requires OnBlocks(e) && |iv| == SIZE && Whole(|a|) && 0 < |b| <= SIZE
    ensures var c := e(Chain(b, EncIv(e, iv, a)));
            CbcEnc(e, iv, a + b) == CbcEnc(e, iv, a) + c && EncIv(e, iv, a + b) == c
  {
    SplitEnc(e, iv, a, b);
    OneBlockEnc(e, EncIv(e, iv, a), b);
  }

  lemma EncOneMore(e: Bytes -> Bytes, iv: Bytes, src: Bytes, was: Bytes, pos: nat, out: Bytes, cur: Bytes, len: nat)
    requires OnBlocks(e) && |iv| == SIZE && EncSoFar(e, iv, src, was, pos, out, cur)
    requires 0 < len <= SIZE && pos + len <= |src| && pos + SIZE <= |was|
    ensures |CbcEnc(e, iv, src[..pos + len])| == pos + SIZE
    ensures var c := e(Chain(src[pos..pos + len], cur));
            && Patched(out, pos, c) == Patched(was, 0, CbcEnc(e, iv, src[..pos + len]))
            && EncIv(e, iv, src[..pos + len]) == c
  {
    assert src[..pos + len] == src[..pos] + src[pos..pos + len];
    AppendBlock(e, iv, src[..pos], src[pos..pos + len]);
    PaddedAdd(pos, 0);
    PatchedMore(was, CbcEnc(e, iv, src[..pos]), e(Chain(src[pos..pos + len], cur)));
  }

  lemma OneBlockEnc(e: Bytes -> Bytes, iv: Bytes, b: Bytes)
    requires OnBlocks(e) && |iv| == SIZE && 0 < |b| <= SIZE
    ensures CbcEnc(e, iv, b) == e(Chain(b, iv)) == EncIv(e, iv, b)
  {
    if |b| == SIZE {
      assert b[..SIZE] == b && b[SIZE..] == [];
    }
  }

  /** The input from pos on has not been overwritten. */
  ghost predicate Intact(inp: Bytes, src: Bytes, pos: nat) {
    |src| <= |inp| && forall i :: pos <= i < |src| ==> inp[i] == src[i]
  }

  /** One turn of the encryption loop, or its short tail: len bytes at pos. */
  method EncStep(t: Tables, inp: array<bv8>, out: array<bv8>, pos: nat, len: nat, key: AesKey, ivec: array<bv8>,
                 ghost e: Bytes -> Bytes)
    requires key.Ready() && ivec.Length == SIZE && ivec != inp && ivec != out
    requires 0 < len <= SIZE && pos + len <= inp.Length && pos + SIZE <= out.Length
    requires EncryptsAs(t, key.rdKey[..], key.rounds, e)
    modifies out, ivec
    ensures ivec[..] == e(Chain(old(inp[pos..pos + len]), old(ivec[..])))
    ensures out[..] == Patched(old(out[..]), pos, ivec[..])
  {
    var tmp := ChainBytes(inp[pos..pos + len], ivec[..]);
    tmp := EncOne(t, tmp, key, e);
    PutBytes(out, pos, tmp);
    SetIv(ivec, tmp);
  }

  /** What encryption leaves: the ciphertext in out, the rest of out as it was, and the new iv. */
  ghost predicate EncDone(e: Bytes -> Bytes, iv: Bytes, src: Bytes, was: Bytes, out: Bytes, cur: Bytes)
    requires OnBlocks(e) && |iv| == SIZE
  {
    Padded(|src|) <= |was| && out == Patched(was, 0, CbcEnc(e, iv, src)) && cur == EncIv(e, iv, src)
  }

  lemma EncBegin(e: Bytes -> Bytes, iv: Bytes, src: Bytes, was: Bytes)
    requires OnBlocks(e) && |iv| == SIZE
    ensures EncSoFar(e, iv, src, was, 0, was, iv)
  {
    assert src[..0] == [];
    assert Patched(was, 0, []) == was;
  }

  lemma EncEnd(e: Bytes -> Bytes, iv: Bytes, src: Bytes, was: Bytes, out: Bytes, cur: Bytes)
    requires OnBlocks(e) && |iv| == SIZE && EncSoFar(e, iv, src, was, |src|, out, cur)
    ensures EncDone(e, iv, src, was, out, cur)
  {
    assert src[..|src|] == src;
  }

  lemma EncNext(e: Bytes -> Bytes, iv: Bytes, src: Bytes, was: Bytes, pos: nat, out: Bytes, cur: Bytes, len: nat)
    requires OnBlocks(e) && |iv| == SIZE && EncSoFar(e, iv, src, was, pos, out, cur)
    requires 0 < len <= SIZE && pos + len <= |src| && pos + SIZE <= |was|
    ensures var c := e(Chain(src[pos..pos + len], cur));
            && (len == SIZE ==> EncSoFar(e, iv, src, was, pos + SIZE, Patched(out, pos, c), c))
            && (pos + len == |src| ==> EncDone(e, iv, src, was, Patched(out, pos, c), c))
  {
    EncOneMore(e, iv, src, was, pos, out, cur, len);
    assert src[..|src|] == src;
  }

  /** The same, against the specification. */
  method EncTurn(t: Tables, inp: array<bv8>, out: array<bv8>, pos: nat, len: nat, key: AesKey, ivec: array<bv8>,
                 ghost e: Bytes -> Bytes, ghost iv: Bytes, ghost src: Bytes, ghost was: Bytes)
    requires key.Ready() && ivec.Length == SIZE && ivec != inp && ivec != out
    requires 0 < len <= SIZE && pos + len <= |src| <= inp.Length && pos + SIZE <= out.Length && |was| == out.Length
    requires EncryptsAs(t, key.rdKey[..], key.rounds, e) && OnBlocks(e) && |iv| == SIZE
    requires EncSoFar(e, iv, src, was, pos, out[..], ivec[..]) && Intact(inp[..], src, pos)
    modifies out, ivec
    ensures len == SIZE ==> EncSoFar(e, iv, src, was, pos + SIZE, out[..], ivec[..]) && Intact(inp[..], src, pos + SIZE)
    ensures pos + len == |src| ==> EncDone(e, iv, src, was, out[..], ivec[..])
  {
    ghost var before, o, v := inp[..], out[..], ivec[..];
    EncNext(e, iv, src, was, pos, o, v, len);
    assert inp[pos..pos + len] == src[pos..pos + len];
    EncStep(t, inp, out, pos, len, key, ivec, e);
    IntactNext(before, inp[..], src, pos, ivec[..]);
  }

  /** Writing at pos leaves the input behind it intact. */
  lemma IntactNext(before: Bytes, now: Bytes, src: Bytes, pos: nat, c: Bytes)
    requires Intact(before, src, pos) && |c| <= SIZE
    requires now == before || (pos + |c| <= |before| && now == Patched(before, pos, c))
    ensures Intact(now, src, pos + SIZE)
  {
  }

  /** The end of encryption: the short block, if there is one. */
  method EncTail(t: Tables, inp: array<bv8>, out: array<bv8>, pos: nat, len: nat, key: AesKey, ivec: array<bv8>,
                 ghost e: Bytes -> Bytes, ghost iv: Bytes, ghost src: Bytes, ghost was: Bytes)
    requires key.Ready() && ivec.Length == SIZE && ivec != inp && ivec != out
    requires len < SIZE && pos + len == |src| <= inp.Length && Padded(pos + len) <= out.Length == |was|
    requires EncryptsAs(t, key.rdKey[..], key.rounds, e) && OnBlocks(e) && |iv| == SIZE
    requires EncSoFar(e, iv, src, was, pos, out[..], ivec[..]) && Intact(inp[..], src, pos)
    modifies out, ivec
    ensures EncDone(e, iv, src, was, out[..], ivec[..])
  {
    PaddedAdd(pos, len);
    if len != 0 {
      EncTurn(t, inp, out, pos, len, key, ivec, e, iv, src, was);
    } else {
      EncEnd(e, iv, src, was, out[..], ivec[..]);
    }
  }

  /** The loop over whole blocks. */
  method EncBlocks(t: Tables, inp: array<bv8>, out: array<bv8>, length: nat, key: AesKey, ivec: array<bv8>,
                   ghost e: Bytes -> Bytes, ghost iv: Bytes, ghost src: Bytes, ghost was: Bytes)
    returns (pos: nat, len: nat)
    requires key.Ready() && ivec.Length == SIZE && ivec != inp && ivec != out
    requires length == |src| <= inp.Length && Padded(length) <= out.Length == |was|
    requires EncryptsAs(t, key.rdKey[..], key.rounds, e) && OnBlocks(e) && |iv| == SIZE
    requires EncSoFar(e, iv, src, was, 0, out[..], ivec[..]) && Intact(inp[..], src, 0)
    modifies out, ivec
    ensures pos + len == length && len < SIZE
    ensures EncSoFar(e, iv, src, was, pos, out[..], ivec[..]) && Intact(inp[..], src, pos)
  {
    len, pos := length, 0;
    while len >= SIZE
      invariant 0 <= len && pos + len == length
      invariant EncSoFar(e, iv, src, was, pos, out[..], ivec[..]) && Intact(inp[..], src, pos)
    {
      EncTurn(t, inp, out, pos, SIZE, key, ivec, e, iv, src, was);
      pos := pos + SIZE;
      len := len - SIZE;
    }
  }

  /** The encrypting half of AES_cbc_encrypt; out may be the input buffer. */
  method EncryptCbc(t: Tables, inp: array<bv8>, out: array<bv8>, length: nat, key: AesKey, ivec: array<bv8>,
                    ghost e: Bytes -> Bytes)
    requires key.Ready() && ivec.Length == SIZE && ivec != inp && ivec != out
    requires length <= inp.Length && Padded(length) <= out.Length
    requires EncryptsAs(t, key.rdKey[..], key.rounds, e) && OnBlocks(e)
    modifies out, ivec
    ensures EncDone(e, old(ivec[..]), old(inp[..length]), old(out[..]), out[..], ivec[..])
  {
    ghost var src, was, iv := inp[..length], out[..], ivec[..];
    EncBegin(e, iv, src, was);
    var pos, len := EncBlocks(t, inp, out, length, key, ivec, e, iv, src, was);
    EncTail(t, inp, out, pos, len, key, ivec, e, iv, src, was);
  }

  // ---------------------------------------------------------------- decryption

  ghost predicate DecSoFar(d: Bytes -> Bytes, iv: Bytes, src: Bytes, was: Bytes, pos: nat, out: Bytes, cur: Bytes)
    requires OnBlocks(d) && |iv| == SIZE
  {
    && pos <= |src| && Whole(pos) && pos <= |was| && |cur| == SIZE && Padded(pos) <= pos
    && out == Patched(was, 0, CbcDec(d, iv, src[..pos], pos)) && cur == DecIv(d, iv, src[..pos], pos)
  }

  /** What decrypting n bytes leaves. */
  ghost predicate DecDone(d: Bytes -> Bytes, iv: Bytes, src: Bytes, n: nat, was: Bytes, out: Bytes, cur: Bytes)
    requires OnBlocks(d) && |iv| == SIZE
  {
    && Padded(n) <= |src| && n <= |was|
    && out == Patched(was, 0, CbcDec(d, iv, src, n)) && cur == DecIv(d, iv, src, n)
  }

  /** The iv after a block: the ciphertext block, or after a short one the decrypted block. */
  ghost function NextIv(d: Bytes -> Bytes, b: Bytes, len: nat): Bytes { if len < SIZE then d(b) else b }

  lemma OneBlockDec(d: Bytes -> Bytes, iv: Bytes, b: Bytes, len: nat)
    requires OnBlocks(d) && |iv| == |b| == SIZE && 0 < len <= SIZE
    ensures Padded(len) == SIZE
    ensures CbcDec(d, iv, b, len) == Chain(d(b), iv)[..len] && DecIv(d, iv, b, len) == NextIv(d, b, len)
  {
    assert b[..SIZE] == b && b[SIZE..] == [];
    assert Chain(d(b), iv)[..SIZE] == Chain(d(b), iv);
  }

  lemma OneBlockLength(len: nat)
    requires 0 < len <= SIZE
    ensures Padded(len) == SIZE
  {
    assert Padded(0) == 0;
  }

  lemma AppendBlockDec(d: Bytes -> Bytes, iv: Bytes, ab: Bytes, a: Bytes, b: Bytes, len: nat)
    requires OnBlocks(d) && |iv| == |b| == SIZE && ab == a + b && Whole(|a|) && 0 < len <= SIZE
    ensures Padded(|a|) <= |a| && Padded(|a| + len) <= |a| + SIZE
    ensures var cur := DecIv(d, iv, a, |a|);
            && CbcDec(d, iv, ab, |a| + len) == CbcDec(d, iv, a, |a|) + Chain(d(b), cur)[..len]
            && DecIv(d, iv, ab, |a| + len) == NextIv(d, b, len)
  {
    PaddedAdd(|a|, len);
    OneBlockLength(len);
    SplitDec(d, iv, a, b, len);
    OneBlockDec(d, DecIv(d, iv, a, |a|), b, len);
  }

  lemma DecOneMore(d: Bytes -> Bytes, iv: Bytes, src: Bytes, was: Bytes, pos: nat, out: Bytes, cur: Bytes, len: nat)
    requires OnBlocks(d) && |iv| == SIZE && DecSoFar(d, iv, src, was, pos, out, cur)
    requires 0 < len <= SIZE && pos + SIZE <= |src| && pos + len <= |was|
    ensures Padded(pos + len) <= pos + SIZE
    ensures var b := src[pos..pos + SIZE];
            && Patched(out, pos, Chain(d(b), cur)[..len]) ==
               Patched(was, 0, CbcDec(d, iv, src[..pos + SIZE], pos + len))
            && DecIv(d, iv, src[..pos + SIZE], pos + len) == NextIv(d, b, len)
  {
    var a, b := src[..pos], src[pos..pos + SIZE];
    assert src[..pos + SIZE] == a + b;
    AppendBlockDec(d, iv, src[..pos + SIZE], a, b, len);
    PatchedMore(was, CbcDec(d, iv, a, pos), Chain(d(b), cur)[..len]);
  }

  lemma DecBegin(d: Bytes -> Bytes, iv: Bytes, src: Bytes, was: Bytes)
    requires OnBlocks(d) && |iv| == SIZE
    ensures DecSoFar(d, iv, src, was, 0, was, iv)
  {
    assert Patched(was, 0, []) == was;
  }

  lemma DecNext(d: Bytes -> Bytes, iv: Bytes, src: Bytes, was: Bytes, pos: nat, out: Bytes, cur: Bytes, len: nat)
    requires OnBlocks(d) && |iv| == SIZE && DecSoFar(d, iv, src, was, pos, out, cur)
    requires 0 < len <= SIZE && pos + SIZE <= |src| && pos + len <= |was|
    ensures var b := src[pos..pos + SIZE];
            var r := Patched(out, pos, Chain(d(b), cur)[..len]);
            && (len == SIZE ==> DecSoFar(d, iv, src, was, pos + SIZE, r, NextIv(d, b, len)))
            && (pos + SIZE == |src| ==> DecDone(d, iv, src, pos + len, was, r, NextIv(d, b, len)))
  {
    DecOneMore(d, iv, src, was, pos, out, cur, len);
    PaddedAdd(pos, len);
    assert src[..|src|] == src;
  }

  lemma DecEnd(d: Bytes -> Bytes, iv: Bytes, src: Bytes, was: Bytes, out: Bytes, cur: Bytes)
    requires OnBlocks(d) && |iv| == SIZE && DecSoFar(d, iv, src, was, |src|, out, cur)
    ensures DecDone(d, iv, src, |src|, was, out, cur)
  {
    assert src[..|src|] == src;
  }

  /** One turn of the decryption loop, or its short tail. */
  method DecStep(t: Tables, inp: array<bv8>, out: array<bv8>, pos: nat, len: nat, key: AesKey, ivec: array<bv8>,
                 ghost d: Bytes -> Bytes)
    requires key.Ready() && ivec.Length == SIZE && ivec != inp && ivec != out
    requires 0 < len <= SIZE && pos + SIZE <= inp.Length && pos + len <= out.Length
    requires DecryptsAs(t, key.rdKey[..], key.rounds, d)
    modifies out, ivec
    ensures var b := old(inp[pos..pos + SIZE]);
            && |d(b)| == SIZE && ivec[..] == NextIv(d, b, len)
            && out[..] == Patched(old(out[..]), pos, Chain(d(b), old(ivec[..]))[..len])
  {
    var tmp := inp[pos..pos + SIZE];
    var plain := DecOne(t, tmp, key, d);
    var chained := ChainBytes(plain, ivec[..]);
    PutBytes(out, pos, chained[..len]);
    SetIv(ivec, if len < SIZE then plain else tmp);
  }

  method DecTurn(t: Tables, inp: array<bv8>, out: array<bv8>, pos: nat, len: nat, key: AesKey, ivec: array<bv8>,
                 ghost d: Bytes -> Bytes, ghost iv: Bytes, ghost src: Bytes, ghost was: Bytes)
    requires key.Ready() && ivec.Length == SIZE && ivec != inp && ivec != out
    requires 0 < len <= SIZE && pos + SIZE <= |src| <= inp.Length && pos + len <= out.Length && |was| == out.Length
    requires DecryptsAs(t, key.rdKey[..], key.rounds, d) && OnBlocks(d) && |iv| == SIZE
    requires DecSoFar(d, iv, src, was, pos, out[..], ivec[..]) && Intact(inp[..], src, pos)
    modifies out, ivec
    ensures len == SIZE ==> DecSoFar(d, iv, src, was, pos + SIZE, out[..], ivec[..]) && Intact(inp[..], src, pos + SIZE)
    ensures pos + SIZE == |src| ==> DecDone(d, iv, src, pos + len, was, out[..], ivec[..])
  {
    ghost var before, o, v := inp[..], out[..], ivec[..];
    ghost var plain := Chain(d(src[pos..pos + SIZE]), v)[..len];
    DecNext(d, iv, src, was, pos, o, v, len);
    assert inp[pos..pos + SIZE] == src[pos..pos + SIZE];
    DecStep(t, inp, out, pos, len, key, ivec, d);
    IntactNext(before, inp[..], src, pos, plain);
  }

  /** The end of decryption: the short block, if there is one. */
  method DecTail(t: Tables, inp: array<bv8>, out: array<bv8>, pos: nat, len: nat, key: AesKey, ivec: array<bv8>,
                 ghost d: Bytes -> Bytes, ghost iv: Bytes, ghost src: Bytes, ghost was: Bytes)
    requires key.Ready() && ivec.Length == SIZE && ivec != inp && ivec != out
    requires len < SIZE && |src| == Padded(pos + len) <= inp.Length && pos + len <= out.Length && |was| == out.Length
    requires DecryptsAs(t, key.rdKey[..], key.rounds, d) && OnBlocks(d) && |iv| == SIZE
    requires DecSoFar(d, iv, src, was, pos, out[..], ivec[..]) && Intact(inp[..], src, pos)
    modifies out, ivec
    ensures DecDone(d, iv, src, pos + len, was, out[..], ivec[..])
  {
    PaddedAdd(pos, len);
    if len != 0 {
      DecTurn(t, inp, out, pos, len, key, ivec, d, iv, src, was);
    } else {
      DecEnd(d, iv, src, was, out[..], ivec[..]);
    }
  }

  method DecBlocks(t: Tables, inp: array<bv8>, out: array<bv8>, length: nat, key: AesKey, ivec: array<bv8>,
                   ghost d: Bytes -> Bytes, ghost iv: Bytes, ghost src: Bytes, ghost was: Bytes)
    returns (pos: nat, len: nat)
    requires key.Ready() && ivec.Length == SIZE && ivec != inp && ivec != out
    requires |src| == Padded(length) <= inp.Length && length <= out.Length == |was|
    requires DecryptsAs(t, key.rdKey[..], key.rounds, d) && OnBlocks(d) && |iv| == SIZE
    requires DecSoFar(d, iv, src, was, 0, out[..], ivec[..]) && Intact(inp[..], src, 0)
    modifies out, ivec
    ensures pos + len == length && len < SIZE
    ensures DecSoFar(d, iv, src, was, pos, out[..], ivec[..]) && Intact(inp[..], src, pos)
  {
    len, pos := length, 0;
    while len >= SIZE
      invariant 0 <= len && pos + len == length
      invariant DecSoFar(d, iv, src, was, pos, out[..], ivec[..]) && Intact(inp[..], src, pos)
    {
      DecTurn(t, inp, out, pos, SIZE, key, ivec, d, iv, src, was);
      pos := pos + SIZE;
      len := len - SIZE;
    }
  }

  /** The decrypting half of AES_cbc_encrypt; it reads the whole last block of ciphertext. */
  method DecryptCbc(t: Tables, inp: array<bv8>, out: array<bv8>, length: nat, key: AesKey, ivec: array<bv8>,
                    ghost d: Bytes -> Bytes)
    requires key.Ready() && ivec.Length == SIZE && ivec != inp && ivec != out
    requires Padded(length) <= inp.Length && length <= out.Length
    requires DecryptsAs(t, key.rdKey[..], key.rounds, d) && OnBlocks(d)
    modifies out, ivec
    ensures DecDone(d, old(ivec[..]), old(inp[..Padded(length)]), length, old(out[..]), out[..], ivec[..])
  {
    ghost var src, was, iv := inp[..Padded(length)], out[..], ivec[..];
    DecBegin(d, iv, src, was);
    var pos, len := DecBlocks(t, inp, out, length, key, ivec, d, iv, src, was);
    DecTail(t, inp, out, pos, len, key, ivec, d, iv, src, was);
  }

  // ---------------------------------------------------------------- AES_cbc_encrypt

  lemma WithMaps(t: Tables, rk: seq<bv32>, nr: nat)
    requires nr >= 1 && 4 * nr + 4 <= |rk|
    ensures OnBlocks(EncWith(t, rk, nr)) && EncryptsAs(t, rk, nr, EncWith(t, rk, nr))
    ensures OnBlocks(DecWith(t, rk, nr)) && DecryptsAs(t, rk, nr, DecWith(t, rk, nr))
  {
  }

  /** AES_cbc_encrypt; in and out are one buffer or two. */
  method Cbc(t: Tables, inp: array<bv8>, out: array<bv8>, length: nat, key: AesKey, ivec: array<bv8>, enc: bool)
    requires key.Ready() && ivec.Length == SIZE && ivec != inp && ivec != out
    requires (if enc then length else Padded(length)) <= inp.Length
    requires (if enc then Padded(length) else length) <= out.Length
    modifies out, ivec
    ensures enc ==> var e := EncWith(t, old(key.rdKey[..]), key.rounds);
                    OnBlocks(e) && EncDone(e, old(ivec[..]), old(inp[..length]), old(out[..]), out[..], ivec[..])
    ensures !enc ==> var d := DecWith(t, old(key.rdKey[..]), key.rounds);
                     OnBlocks(d) &&
                     DecDone(d, old(ivec[..]), old(inp[..Padded(length)]), length, old(out[..]), out[..], ivec[..])
  {
    WithMaps(t, key.rdKey[..], key.rounds);
    if enc {
      EncryptCbc(t, inp, out, length, key, ivec, EncWith(t, key.rdKey[..], key.rounds));
    } else {
      DecryptCbc(t, inp, out, length, key, ivec, DecWith(t, key.rdKey[..], key.rounds));
    }
  }
}
