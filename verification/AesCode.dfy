/** aes.c: the table-driven rounds, the key schedules filled in place, and single-block encryption. The
    static tables are passed as `t`. */
module AesCode {
  import opened AesField
  import opened AesCipher

  // ---------------------------------------------------------------- the tables, by their formulas

  function Te0(t: Tables, x: bv8): bv32 { var s := t.s(x); Pack(Mul2(t, s), s, s, Mul3(t, s)) }

  function Te1(t: Tables, x: bv8): bv32 { var s := t.s(x); Pack(Mul3(t, s), Mul2(t, s), s, s) }

  function Te2(t: Tables, x: bv8): bv32 { var s := t.s(x); Pack(s, Mul3(t, s), Mul2(t, s), s) }

  function Te3(t: Tables, x: bv8): bv32 { var s := t.s(x); Pack(s, s, Mul3(t, s), Mul2(t, s)) }

  function Te4(t: Tables, x: bv8): bv32 { var s := t.s(x); Pack(s, s, s, s) }

  function Td0(t: Tables, x: bv8): bv32 { var s := t.si(x); Pack(MulE(t, s), Mul9(t, s), MulD(t, s), MulB(t, s)) }

  function Td1(t: Tables, x: bv8): bv32 { var s := t.si(x); Pack(MulB(t, s), MulE(t, s), Mul9(t, s), MulD(t, s)) }

  function Td2(t: Tables, x: bv8): bv32 { var s := t.si(x); Pack(MulD(t, s), MulB(t, s), MulE(t, s), Mul9(t, s)) }

  function Td3(t: Tables, x: bv8): bv32 { var s := t.si(x); Pack(Mul9(t, s), MulD(t, s), MulB(t, s), MulE(t, s)) }

  function Td4(t: Tables, x: bv8): bv32 { var s := t.si(x); Pack(s, s, s, s) }

  // ---------------------------------------------------------------- sums of four words

  function Xor4(a: bv32, b: bv32, c: bv32, d: bv32): bv32 { XorW(XorW(XorW(a, b), c), d) }

  lemma SumLeft(a: bv8, b: bv8, c: bv8, d: bv8)
    ensures Xor(Xor(Xor(a, b), c), d) == Sum4(a, b, c, d)
  {
    Assoc(Xor(a, b), c, d);
  }

  lemma PackSum(a0: bv8, a1: bv8, a2: bv8, a3: bv8, b0: bv8, b1: bv8, b2: bv8, b3: bv8,
                c0: bv8, c1: bv8, c2: bv8, c3: bv8, d0: bv8, d1: bv8, d2: bv8, d3: bv8)
    ensures Xor4(Pack(a0, a1, a2, a3), Pack(b0, b1, b2, b3), Pack(c0, c1, c2, c3), Pack(d0, d1, d2, d3)) ==
            Pack(Sum4(a0, b0, c0, d0), Sum4(a1, b1, c1, d1), Sum4(a2, b2, c2, d2), Sum4(a3, b3, c3, d3))
  {
    PackXor(a0, a1, a2, a3, b0, b1, b2, b3);
    PackXor(Xor(a0, b0), Xor(a1, b1), Xor(a2, b2), Xor(a3, b3), c0, c1, c2, c3);
    PackXor(Xor(Xor(a0, b0), c0), Xor(Xor(a1, b1), c1), Xor(Xor(a2, b2), c2), Xor(Xor(a3, b3), c3), d0, d1, d2, d3);
    SumLeft(a0, b0, c0, d0);
    SumLeft(a1, b1, c1, d1);
    SumLeft(a2, b2, c2, d2);
    SumLeft(a3, b3, c3, d3);
  }

  lemma Half(a: bv8, b: bv8, c: bv8, d: bv8)
    ensures Sum4(a, b, c, d) == Sum4(c, d, a, b)
  {
    Comm(Xor(a, b), Xor(c, d));
  }

  // ---------------------------------------------------------------- one column of a round

  /** Four table look-ups are a column of MixColumns after SubBytes. */
  lemma EncColumn(t: Tables, a: bv8, b: bv8, c: bv8, d: bv8)
    ensures Xor4(Te0(t, a), Te1(t, b), Te2(t, c), Te3(t, d)) == Mix(t, Pack(t.s(a), t.s(b), t.s(c), t.s(d)))
  {
    var p, q, r, s := t.s(a), t.s(b), t.s(c), t.s(d);
    PackSum(Mul2(t, p), p, p, Mul3(t, p), Mul3(t, q), Mul2(t, q), q, q,
            r, Mul3(t, r), Mul2(t, r), r, s, s, Mul3(t, s), Mul2(t, s));
    Unpacked(p, q, r, s);
    Rotate(Mul2(t, q), Mul3(t, r), s, p);
    Half(p, q, Mul2(t, r), Mul3(t, s));
    Rotate(Mul3(t, p), q, r, Mul2(t, s));
  }

  lemma DecColumn(t: Tables, a: bv8, b: bv8, c: bv8, d: bv8)
    ensures Xor4(Td0(t, a), Td1(t, b), Td2(t, c), Td3(t, d)) == InvMix(t, Pack(t.si(a), t.si(b), t.si(c), t.si(d)))
  {
    var p, q, r, s := t.si(a), t.si(b), t.si(c), t.si(d);
    PackSum(MulE(t, p), Mul9(t, p), MulD(t, p), MulB(t, p), MulB(t, q), MulE(t, q), Mul9(t, q), MulD(t, q),
            MulD(t, r), MulB(t, r), MulE(t, r), Mul9(t, r), Mul9(t, s), MulD(t, s), MulB(t, s), MulE(t, s));
    Unpacked(p, q, r, s);
    Rotate(MulE(t, q), MulB(t, r), MulD(t, s), Mul9(t, p));
    Half(MulD(t, p), Mul9(t, q), MulE(t, r), MulB(t, s));
    Rotate(MulB(t, p), MulD(t, q), Mul9(t, r), MulE(t, s));
  }

  function Mask0(w: bv32): bv32 { w & 0xff000000 }

  function Mask1(w: bv32): bv32 { w & 0x00ff0000 }

  function Mask2(w: bv32): bv32 { w & 0x0000ff00 }

  function Mask3(w: bv32): bv32 { w & 0x000000ff }

  /** Four masked words with equal bytes make up one word. */
  lemma Assembled(a: bv8, b: bv8, c: bv8, d: bv8)
    ensures Xor4(Mask0(Pack(a, a, a, a)), Mask1(Pack(b, b, b, b)), Mask2(Pack(c, c, c, c)), Mask3(Pack(d, d, d, d))) ==
            Pack(a, b, c, d)
  {
    assert Mask0(Pack(a, a, a, a)) == Pack(a, 0, 0, 0) by { Top(a); }
    assert Mask1(Pack(b, b, b, b)) == Pack(0, b, 0, 0) by { Second(b); }
    assert Mask2(Pack(c, c, c, c)) == Pack(0, 0, c, 0) by { Third(c); }
    assert Mask3(Pack(d, d, d, d)) == Pack(0, 0, 0, d) by { Bottom(d); }
    PackSum(a, 0, 0, 0, 0, b, 0, 0, 0, 0, c, 0, 0, 0, 0, d);
    OnlyFirst(a);
    OnlyFirst(b);
    OnlyFirst(c);
    OnlyFirst(d);
    Rotate(b, 0, 0, 0);
    Half(c, 0, 0, 0);
    Rotate(0, 0, 0, d);
  }

  lemma Top(a: bv8)
    ensures Mask0(Pack(a, a, a, a)) == Pack(a, 0, 0, 0)
  {
  }

  lemma Second(a: bv8)
    ensures Mask1(Pack(a, a, a, a)) == Pack(0, a, 0, 0)
  {
  }

  lemma Third(a: bv8)
    ensures Mask2(Pack(a, a, a, a)) == Pack(0, 0, a, 0)
  {
  }

  lemma Bottom(a: bv8)
    ensures Mask3(Pack(a, a, a, a)) == Pack(0, 0, 0, a)
  {
  }

  // ---------------------------------------------------------------- whole rounds

  lemma SubShiftColumns(t: Tables, x: Block)
    ensures SubShift(t, x) ==
            Block(Pack(t.s(B0(x.w0)), t.s(B1(x.w1)), t.s(B2(x.w2)), t.s(B3(x.w3))),
                  Pack(t.s(B0(x.w1)), t.s(B1(x.w2)), t.s(B2(x.w3)), t.s(B3(x.w0))),
                  Pack(t.s(B0(x.w2)), t.s(B1(x.w3)), t.s(B2(x.w0)), t.s(B3(x.w1))),
                  Pack(t.s(B0(x.w3)), t.s(B1(x.w0)), t.s(B2(x.w1)), t.s(B3(x.w2))))
  {
    SubWordBytes(t.s, x.w0);
    SubWordBytes(t.s, x.w1);
    SubWordBytes(t.s, x.w2);
    SubWordBytes(t.s, x.w3);
  }

  lemma InvSubShiftColumns(t: Tables, x: Block)
    ensures InvSubShift(t, x) ==
            Block(Pack(t.si(B0(x.w0)), t.si(B1(x.w3)), t.si(B2(x.w2)), t.si(B3(x.w1))),
                  Pack(t.si(B0(x.w1)), t.si(B1(x.w0)), t.si(B2(x.w3)), t.si(B3(x.w2))),
                  Pack(t.si(B0(x.w2)), t.si(B1(x.w1)), t.si(B2(x.w0)), t.si(B3(x.w3))),
                  Pack(t.si(B0(x.w3)), t.si(B1(x.w2)), t.si(B2(x.w1)), t.si(B3(x.w0))))
  {
    SubWordBytes(t.si, x.w0);
    SubWordBytes(t.si, x.w1);
    SubWordBytes(t.si, x.w2);
    SubWordBytes(t.si, x.w3);
  }

  /** A full round of AES_encrypt. */
  function TableRound(t: Tables, s: Block, k: Block): Block {
    Block(XorW(Xor4(Te0(t, B0(s.w0)), Te1(t, B1(s.w1)), Te2(t, B2(s.w2)), Te3(t, B3(s.w3))), k.w0),
          XorW(Xor4(Te0(t, B0(s.w1)), Te1(t, B1(s.w2)), Te2(t, B2(s.w3)), Te3(t, B3(s.w0))), k.w1),
          XorW(Xor4(Te0(t, B0(s.w2)), Te1(t, B1(s.w3)), Te2(t, B2(s.w0)), Te3(t, B3(s.w1))), k.w2),
          XorW(Xor4(Te0(t, B0(s.w3)), Te1(t, B1(s.w0)), Te2(t, B2(s.w1)), Te3(t, B3(s.w2))), k.w3))
  }

  /** The last round of AES_encrypt. */
  function LastTableRound(t: Tables, s: Block, k: Block): Block {
    Block(XorW(Xor4(Mask0(Te4(t, B0(s.w0))), Mask1(Te4(t, B1(s.w1))), Mask2(Te4(t, B2(s.w2))),
                    Mask3(Te4(t, B3(s.w3)))), k.w0),
          XorW(Xor4(Mask0(Te4(t, B0(s.w1))), Mask1(Te4(t, B1(s.w2))), Mask2(Te4(t, B2(s.w3))),
                    Mask3(Te4(t, B3(s.w0)))), k.w1),
          XorW(Xor4(Mask0(Te4(t, B0(s.w2))), Mask1(Te4(t, B1(s.w3))), Mask2(Te4(t, B2(s.w0))),
                    Mask3(Te4(t, B3(s.w1)))), k.w2),
          XorW(Xor4(Mask0(Te4(t, B0(s.w3))), Mask1(Te4(t, B1(s.w0))), Mask2(Te4(t, B2(s.w1))),
                    Mask3(Te4(t, B3(s.w2)))), k.w3))
  }

  /** A full round of AES_decrypt. */
  function InvTableRound(t: Tables, s: Block, k: Block): Block {
    Block(XorW(Xor4(Td0(t, B0(s.w0)), Td1(t, B1(s.w3)), Td2(t, B2(s.w2)), Td3(t, B3(s.w1))), k.w0),
          XorW(Xor4(Td0(t, B0(s.w1)), Td1(t, B1(s.w0)), Td2(t, B2(s.w3)), Td3(t, B3(s.w2))), k.w1),
          XorW(Xor4(Td0(t, B0(s.w2)), Td1(t, B1(s.w1)), Td2(t, B2(s.w0)), Td3(t, B3(s.w3))), k.w2),
          XorW(Xor4(Td0(t, B0(s.w3)), Td1(t, B1(s.w2)), Td2(t, B2(s.w1)), Td3(t, B3(s.w0))), k.w3))
  }

  /** The last round of AES_decrypt. */
  function LastInvTableRound(t: Tables, s: Block, k: Block): Block {
    Block(XorW(Xor4(Mask0(Td4(t, B0(s.w0))), Mask1(Td4(t, B1(s.w3))), Mask2(Td4(t, B2(s.w2))),
                    Mask3(Td4(t, B3(s.w1)))), k.w0),
          XorW(Xor4(Mask0(Td4(t, B0(s.w1))), Mask1(Td4(t, B1(s.w0))), Mask2(Td4(t, B2(s.w3))),
                    Mask3(Td4(t, B3(s.w2)))), k.w1),
          XorW(Xor4(Mask0(Td4(t, B0(s.w2))), Mask1(Td4(t, B1(s.w1))), Mask2(Td4(t, B2(s.w0))),
                    Mask3(Td4(t, B3(s.w3)))), k.w2),
          XorW(Xor4(Mask0(Td4(t, B0(s.w3))), Mask1(Td4(t, B1(s.w2))), Mask2(Td4(t, B2(s.w1))),
                    Mask3(Td4(t, B3(s.w0)))), k.w3))
  }

  lemma TableRoundIs(t: Tables, s: Block, k: Block)
    ensures TableRound(t, s, k) == AddKey(MixColumns(t, SubShift(t, s)), k)
  {
    SubShiftColumns(t, s);
    EncColumn(t, B0(s.w0), B1(s.w1), B2(s.w2), B3(s.w3));
    EncColumn(t, B0(s.w1), B1(s.w2), B2(s.w3), B3(s.w0));
    EncColumn(t, B0(s.w2), B1(s.w3), B2(s.w0), B3(s.w1));
    EncColumn(t, B0(s.w3), B1(s.w0), B2(s.w1), B3(s.w2));
  }

  lemma LastTableRoundIs(t: Tables, s: Block, k: Block)
    ensures LastTableRound(t, s, k) == AddKey(SubShift(t, s), k)
  {
    SubShiftColumns(t, s);
    Assembled(t.s(B0(s.w0)), t.s(B1(s.w1)), t.s(B2(s.w2)), t.s(B3(s.w3)));
    Assembled(t.s(B0(s.w1)), t.s(B1(s.w2)), t.s(B2(s.w3)), t.s(B3(s.w0)));
    Assembled(t.s(B0(s.w2)), t.s(B1(s.w3)), t.s(B2(s.w0)), t.s(B3(s.w1)));
    Assembled(t.s(B0(s.w3)), t.s(B1(s.w0)), t.s(B2(s.w1)), t.s(B3(s.w2)));
  }

  lemma InvTableRoundIs(t: Tables, s: Block, k: Block)
    ensures InvTableRound(t, s, k) == AddKey(InvMixColumns(t, InvSubShift(t, s)), k)
  {
    InvSubShiftColumns(t, s);
    DecColumn(t, B0(s.w0), B1(s.w3), B2(s.w2), B3(s.w1));
    DecColumn(t, B0(s.w1), B1(s.w0), B2(s.w3), B3(s.w2));
    DecColumn(t, B0(s.w2), B1(s.w1), B2(s.w0), B3(s.w3));
    DecColumn(t, B0(s.w3), B1(s.w2), B2(s.w1), B3(s.w0));
  }

  lemma LastInvTableRoundIs(t: Tables, s: Block, k: Block)
    ensures LastInvTableRound(t, s, k) == AddKey(InvSubShift(t, s), k)
  {
    InvSubShiftColumns(t, s);
    Assembled(t.si(B0(s.w0)), t.si(B1(s.w3)), t.si(B2(s.w2)), t.si(B3(s.w1)));
    Assembled(t.si(B0(s.w1)), t.si(B1(s.w0)), t.si(B2(s.w3)), t.si(B3(s.w2)));
    Assembled(t.si(B0(s.w2)), t.si(B1(s.w1)), t.si(B2(s.w0)), t.si(B3(s.w3)));
    Assembled(t.si(B0(s.w3)), t.si(B1(s.w2)), t.si(B2(s.w1)), t.si(B3(s.w0)));
  }

  /** The table rounds do what the operations o say. */
  ghost predicate TablesFor(t: Tables, o: Ops) {
    && (forall s, k {:trigger AddKey(s, k)} :: AddKey(s, k) == o.add(s, k))
    && (forall s, k {:trigger TableRound(t, s, k)} :: TableRound(t, s, k) == o.add(o.mix(o.sub(s)), k))
    && (forall s, k {:trigger LastTableRound(t, s, k)} :: LastTableRound(t, s, k) == o.add(o.sub(s), k))
    && (forall s, k {:trigger InvTableRound(t, s, k)} :: InvTableRound(t, s, k) == o.add(o.imix(o.isub(s)), k))
    && (forall s, k {:trigger LastInvTableRound(t, s, k)} :: LastInvTableRound(t, s, k) == o.add(o.isub(s), k))
  }

  /** The table look-ups refine the rounds of FIPS 197. */
  lemma TablesForAes(t: Tables)
    ensures TablesFor(t, AesOps(t))
  {
    var o := AesOps(t);
    forall s, k ensures TableRound(t, s, k) == o.add(o.mix(o.sub(s)), k) { TableRoundIs(t, s, k); }
    forall s, k ensures LastTableRound(t, s, k) == o.add(o.sub(s), k) { LastTableRoundIs(t, s, k); }
    forall s, k ensures InvTableRound(t, s, k) == o.add(o.imix(o.isub(s)), k) { InvTableRoundIs(t, s, k); }
    forall s, k ensures LastInvTableRound(t, s, k) == o.add(o.isub(s), k) { LastInvTableRoundIs(t, s, k); }
  }

  // ---------------------------------------------------------------- single blocks

  method EncRoundAt(t: Tables, ghost o: Ops, rk: seq<bv32>, ghost x: Block, i: nat, s: Block) returns (r: Block)
    requires TablesFor(t, o) && 4 * i + 8 <= |rk| && s == EncState(o, rk, x, i)
    ensures r == EncState(o, rk, x, i + 1)
  {
    r := TableRound(t, s, RoundKey(rk, i + 1));
  }

  method EncLastAt(t: Tables, ghost o: Ops, rk: seq<bv32>, ghost x: Block, rounds: nat, s: Block) returns (r: Block)
    requires TablesFor(t, o) && rounds >= 1 && 4 * rounds + 4 <= |rk| && s == EncState(o, rk, x, rounds - 1)
    ensures r == Cipher(o, rk, rounds, x)
  {
    r := LastTableRound(t, s, RoundKey(rk, rounds));
  }

  /** The loop of AES_encrypt: two rounds per turn, left after the odd one. */
  method EncryptLoop(t: Tables, ghost o: Ops, rk: seq<bv32>, rounds: nat, x: Block) returns (y: Block)
    requires TablesFor(t, o) && rounds >= 2 && rounds % 2 == 0 && 4 * rounds + 4 <= |rk|
    ensures y == Cipher(o, rk, rounds, x)
  {
    var s := AddKey(x, RoundKey(rk, 0));
    var p := 0;
    var r := rounds / 2;
    var u;
    while true
      invariant 1 <= r && p + 2 * r == rounds && s == EncState(o, rk, x, p)
      decreases r
    {
      u := EncRoundAt(t, o, rk, x, p, s);
      p := p + 2;
      r := r - 1;
      if r == 0 { break; }
      s := EncRoundAt(t, o, rk, x, p - 1, u);
    }
    y := EncLastAt(t, o, rk, x, rounds, u);
  }

  method DecRoundAt(t: Tables, ghost o: Ops, rk: seq<bv32>, ghost y: Block, i: nat, s: Block) returns (r: Block)
    requires TablesFor(t, o) && 4 * i + 8 <= |rk| && s == DecState(o, rk, y, i)
    ensures r == DecState(o, rk, y, i + 1)
  {
    r := InvTableRound(t, s, RoundKey(rk, i + 1));
  }

  method DecLastAt(t: Tables, ghost o: Ops, rk: seq<bv32>, ghost y: Block, rounds: nat, s: Block) returns (r: Block)
    requires TablesFor(t, o) && rounds >= 1 && 4 * rounds + 4 <= |rk| && s == DecState(o, rk, y, rounds - 1)
    ensures r == EqInvCipher(o, rk, rounds, y)
  {
    r := LastInvTableRound(t, s, RoundKey(rk, rounds));
  }

  /** The loop of AES_decrypt: two rounds per turn, left after the odd one. */
  method DecryptLoop(t: Tables, ghost o: Ops, rk: seq<bv32>, rounds: nat, y: Block) returns (x: Block)
    requires TablesFor(t, o) && rounds >= 2 && rounds % 2 == 0 && 4 * rounds + 4 <= |rk|
    ensures x == EqInvCipher(o, rk, rounds, y)
  {
    var s := AddKey(y, RoundKey(rk, 0));
    var p := 0;
    var r := rounds / 2;
    var u;
    while true
      invariant 1 <= r && p + 2 * r == rounds && s == DecState(o, rk, y, p)
      decreases r
    {
      u := DecRoundAt(t, o, rk, y, p, s);
      p := p + 2;
      r := r - 1;
      if r == 0 { break; }
      s := DecRoundAt(t, o, rk, y, p - 1, u);
    }
    x := DecLastAt(t, o, rk, y, rounds, u);
  }

  /** AES_BLOCK_SIZE. */
  const SIZE: nat := 16

  function WordAt(s: seq<bv8>, i: nat): bv32
    requires i + 4 <= |s|
  {
    Pack(s[i], s[i + 1], s[i + 2], s[i + 3])
  }

  function BlockOf(s: seq<bv8>): Block
    requires |s| == SIZE
  {
    Block(WordAt(s, 0), WordAt(s, 4), WordAt(s, 8), WordAt(s, 12))
  }

  /** PUTU32. */
  function WordBytes(w: bv32): (s: seq<bv8>)
    ensures |s| == 4
  {
    [B0(w), B1(w), B2(w), B3(w)]
  }

  function BytesOf(b: Block): (s: seq<bv8>)
    ensures |s| == SIZE
  {
    WordBytes(b.w0) + WordBytes(b.w1) + WordBytes(b.w2) + WordBytes(b.w3)
  }

  lemma WordBytesAt(s: seq<bv8>, i: nat)
    requires i + 4 <= |s|
    ensures WordBytes(WordAt(s, i)) == s[i..i + 4]
  {
    Unpacked(s[i], s[i + 1], s[i + 2], s[i + 3]);
  }

  lemma BytesOfBlockOf(s: seq<bv8>)
    requires |s| == SIZE
    ensures BytesOf(BlockOf(s)) == s
  {
    WordBytesAt(s, 0);
    WordBytesAt(s, 4);
    WordBytesAt(s, 8);
    WordBytesAt(s, 12);
  }

  lemma BlockOfBytesOf(b: Block)
    ensures BlockOf(BytesOf(b)) == b
  {
    Repacked(b.w0);
    Repacked(b.w1);
    Repacked(b.w2);
    Repacked(b.w3);
  }

  // ---------------------------------------------------------------- key expansion

  /** The first n words of the schedule are in place. */
  ghost predicate Filled(t: Tables, key: seq<bv32>, rk: seq<bv32>, n: nat) {
    |key| >= 4 && n <= |rk| && forall i :: 0 <= i < n ==> rk[i] == ExpandedWord(t, key, i)
  }

  method Put(rk: array<bv32>, n: nat, v: bv32, ghost t: Tables, ghost key: seq<bv32>)
    requires Filled(t, key, rk[..], n) && n < rk.Length && v == ExpandedWord(t, key, n)
    modifies rk
    ensures Filled(t, key, rk[..], n + 1)
  {
    rk[n] := v;
  }

  lemma AssocW(a: bv32, b: bv32, c: bv32)
    ensures XorW(XorW(a, b), c) == XorW(a, XorW(b, c))
  {
  }

  /** The sum as aes.c writes it: the base word first, then the four masked look-ups. */
  function Onto(base: bv32, a: bv32, b: bv32, c: bv32, d: bv32): bv32 {
    XorW(XorW(XorW(XorW(base, Mask0(a)), Mask1(b)), Mask2(c)), Mask3(d))
  }

  lemma OntoIs(t: Tables, base: bv32, a: bv8, b: bv8, c: bv8, d: bv8)
    ensures Onto(base, Te4(t, a), Te4(t, b), Te4(t, c), Te4(t, d)) == XorW(base, Pack(t.s(a), t.s(b), t.s(c), t.s(d)))
  {
    var p, q, r, s := Mask0(Te4(t, a)), Mask1(Te4(t, b)), Mask2(Te4(t, c)), Mask3(Te4(t, d));
    AssocW(base, p, q);
    AssocW(base, XorW(p, q), r);
    AssocW(base, XorW(XorW(p, q), r), s);
    Assembled(t.s(a), t.s(b), t.s(c), t.s(d));
  }

  /** rk[nk] from rk[0] and rk[nk - 1], with the constant rcon[i]. */
  method FirstWord(t: Tables, base: bv32, temp: bv32, i: nat) returns (v: bv32)
    requires Laws(t) && i < 10
    ensures v == XorW(base, XorW(SubWord(t.s, RotWord(temp)), Rcon(t, i + 1)))
  {
    v := XorW(Onto(base, Te4(t, B1(temp)), Te4(t, B2(temp)), Te4(t, B3(temp)), Te4(t, B0(temp))), t.rcon(i));
    OntoIs(t, base, B1(temp), B2(temp), B3(temp), B0(temp));
    Unpacked(B1(temp), B2(temp), B3(temp), B0(temp));
    AssocW(base, SubWord(t.s, RotWord(temp)), t.rcon(i));
  }

  /** rk[12] of a 256-bit key. */
  method MiddleWord(t: Tables, base: bv32, temp: bv32) returns (v: bv32)
    ensures v == XorW(base, SubWord(t.s, temp))
  {
    v := Onto(base, Te4(t, B0(temp)), Te4(t, B1(temp)), Te4(t, B2(temp)), Te4(t, B3(temp)));
    OntoIs(t, base, B0(temp), B1(temp), B2(temp), B3(temp));
  }

  lemma Multiple(nk: nat, i: nat)
    requires nk == 4 || nk == 6 || nk == 8
    ensures (nk * i + nk) % nk == 0 && (nk * i + nk) / nk == i + 1
  {
  }

  lemma GroupStart(t: Tables, key: seq<bv32>, p: nat, i: nat)
    requires (|key| == 4 || |key| == 6 || |key| == 8) && p == |key| * i
    ensures ExpandedWord(t, key, p + |key|) ==
            XorW(ExpandedWord(t, key, p),
                 XorW(SubWord(t.s, RotWord(ExpandedWord(t, key, p + |key| - 1))), Rcon(t, i + 1)))
  {
    Multiple(|key|, i);
  }

  /** One word of the schedule that starts a group. */
  method PutFirst(t: Tables, rk: array<bv32>, p: nat, nk: nat, i: nat, ghost key: seq<bv32>)
    requires Laws(t) && i < 10 && |key| == nk && p == nk * i && p + nk < rk.Length && Filled(t, key, rk[..], p + nk)
    requires nk == 4 || nk == 6 || nk == 8
    modifies rk
    ensures Filled(t, key, rk[..], p + nk + 1)
  {
    var v := FirstWord(t, rk[p], rk[p + nk - 1], i);
    GroupStart(t, key, p, i);
    Put(rk, p + nk, v, t, key);
  }

  /** A word that is the sum of the previous one and the one nk places back. */
  method PutNext(t: Tables, rk: array<bv32>, p: nat, ghost nk: nat, j: nat, ghost key: seq<bv32>)
    requires |key| == nk && nk <= j < rk.Length && p == j - nk && Filled(t, key, rk[..], j)
    requires nk >= 4 && j % nk != 0 && !(nk > 6 && j % nk == 4)
    modifies rk
    ensures Filled(t, key, rk[..], j + 1)
  {
    Commuted(rk[p], rk[j - 1]);
    Put(rk, j, XorW(rk[p], rk[j - 1]), t, key);
  }

  lemma Commuted(v: bv32, w: bv32)
    ensures XorW(v, w) == XorW(w, v)
  {
  }

  method Expand128(t: Tables, rk: array<bv32>, ghost key: seq<bv32>)
    requires Laws(t) && |key| == 4 && rk.Length == 60 && Filled(t, key, rk[..], 4)
    modifies rk
    ensures Filled(t, key, rk[..], 44)
  {
    var i := 0;
    while true
      invariant 0 <= i < 10 && Filled(t, key, rk[..], 4 * i + 4)
      decreases 10 - i
    {
      var p := 4 * i;
      PutFirst(t, rk, p, 4, i, key);
      PutNext(t, rk, p + 1, 4, p + 5, key);
      PutNext(t, rk, p + 2, 4, p + 6, key);
      PutNext(t, rk, p + 3, 4, p + 7, key);
      i := i + 1;
      if i == 10 { return; }
    }
  }

  method Expand192(t: Tables, rk: array<bv32>, ghost key: seq<bv32>)
    requires Laws(t) && |key| == 6 && rk.Length == 60 && Filled(t, key, rk[..], 6)
    modifies rk
    ensures Filled(t, key, rk[..], 52)
  {
    var i := 0;
    while true
      invariant 0 <= i < 8 && Filled(t, key, rk[..], 6 * i + 6)
      decreases 8 - i
    {
      var p := 6 * i;
      PutFirst(t, rk, p, 6, i, key);
      PutNext(t, rk, p + 1, 6, p + 7, key);
      PutNext(t, rk, p + 2, 6, p + 8, key);
      PutNext(t, rk, p + 3, 6, p + 9, key);
      i := i + 1;
      if i == 8 { return; }
      PutNext(t, rk, p + 4, 6, p + 10, key);
      PutNext(t, rk, p + 5, 6, p + 11, key);
    }
  }

  /** The word in the middle of a group of eight. */
  method PutMiddle(t: Tables, rk: array<bv32>, p: nat, ghost key: seq<bv32>)
    requires |key| == 8 && p % 8 == 0 && p + 12 < rk.Length && Filled(t, key, rk[..], p + 12)
    modifies rk
    ensures Filled(t, key, rk[..], p + 13)
  {
    var v := MiddleWord(t, rk[p + 4], rk[p + 11]);
    assert (p + 12) % 8 == 4;
    Put(rk, p + 12, v, t, key);
  }

  method Expand256(t: Tables, rk: array<bv32>, ghost key: seq<bv32>)
    requires Laws(t) && |key| == 8 && rk.Length == 60 && Filled(t, key, rk[..], 8)
    modifies rk
    ensures Filled(t, key, rk[..], 60)
  {
    var i := 0;
    while true
      invariant 0 <= i < 7 && Filled(t, key, rk[..], 8 * i + 8)
      decreases 7 - i
    {
      var p := 8 * i;
      PutFirst(t, rk, p, 8, i, key);
      PutNext(t, rk, p + 1, 8, p + 9, key);
      PutNext(t, rk, p + 2, 8, p + 10, key);
      PutNext(t, rk, p + 3, 8, p + 11, key);
      i := i + 1;
      if i == 7 { return; }
      PutMiddle(t, rk, p, key);
      PutNext(t, rk, p + 5, 8, p + 13, key);
      PutNext(t, rk, p + 6, 8, p + 14, key);
      PutNext(t, rk, p + 7, 8, p + 15, key);
    }
  }
}
