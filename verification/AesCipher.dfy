/** The AES as FIPS 197 defines it, round by round: the Cipher (section 5.1), the key expansion (section
    5.2) and the Equivalent Inverse Cipher (section 5.3.5). Decryption is proved to undo encryption. */
module AesCipher {
  import opened AesField

  /** The cipher state, one word per column. */
  datatype Block = Block(w0: bv32, w1: bv32, w2: bv32, w3: bv32)

  // ---------------------------------------------------------------- round operations

  function AddKey(x: Block, k: Block): Block {
    Block(XorW(x.w0, k.w0), XorW(x.w1, k.w1), XorW(x.w2, k.w2), XorW(x.w3, k.w3))
  }

  function SubWord(f: bv8 -> bv8, w: bv32): bv32 { Pack(f(B0(w)), f(B1(w)), f(B2(w)), f(B3(w))) }

  function SubBytes(f: bv8 -> bv8, x: Block): Block {
    Block(SubWord(f, x.w0), SubWord(f, x.w1), SubWord(f, x.w2), SubWord(f, x.w3))
  }

  /** Row r of the state moves r columns to the left. */
  function ShiftRows(x: Block): Block {
    Block(Pack(B0(x.w0), B1(x.w1), B2(x.w2), B3(x.w3)), Pack(B0(x.w1), B1(x.w2), B2(x.w3), B3(x.w0)),
          Pack(B0(x.w2), B1(x.w3), B2(x.w0), B3(x.w1)), Pack(B0(x.w3), B1(x.w0), B2(x.w1), B3(x.w2)))
  }

  function InvShiftRows(x: Block): Block {
    Block(Pack(B0(x.w0), B1(x.w3), B2(x.w2), B3(x.w1)), Pack(B0(x.w1), B1(x.w0), B2(x.w3), B3(x.w2)),
          Pack(B0(x.w2), B1(x.w1), B2(x.w0), B3(x.w3)), Pack(B0(x.w3), B1(x.w2), B2(x.w1), B3(x.w0)))
  }

  function MixColumns(t: Tables, x: Block): Block { Block(Mix(t, x.w0), Mix(t, x.w1), Mix(t, x.w2), Mix(t, x.w3)) }

  function InvMixColumns(t: Tables, x: Block): Block {
    Block(InvMix(t, x.w0), InvMix(t, x.w1), InvMix(t, x.w2), InvMix(t, x.w3))
  }

  function SubShift(t: Tables, x: Block): Block { ShiftRows(SubBytes(t.s, x)) }

  function InvSubShift(t: Tables, x: Block): Block { InvShiftRows(SubBytes(t.si, x)) }

  // ---------------------------------------------------------------- laws of the round operations

  lemma XorTwice(v: bv32, k: bv32)
    ensures XorW(XorW(v, k), k) == v
  {
  }

  lemma AddKeyTwice(x: Block, k: Block)
    ensures AddKey(AddKey(x, k), k) == x
  {
    XorTwice(x.w0, k.w0);
    XorTwice(x.w1, k.w1);
    XorTwice(x.w2, k.w2);
    XorTwice(x.w3, k.w3);
  }

  lemma SubWordBytes(f: bv8 -> bv8, w: bv32)
    ensures B0(SubWord(f, w)) == f(B0(w)) && B1(SubWord(f, w)) == f(B1(w))
    ensures B2(SubWord(f, w)) == f(B2(w)) && B3(SubWord(f, w)) == f(B3(w))
  {
    Unpacked(f(B0(w)), f(B1(w)), f(B2(w)), f(B3(w)));
  }

  lemma SubWordUndone(t: Tables, w: bv32)
    requires Laws(t)
    ensures SubWord(t.si, SubWord(t.s, w)) == w
  {
    SubWordBytes(t.s, w);
    Repacked(w);
  }

  lemma ShiftRowsUndone(x: Block)
    ensures InvShiftRows(ShiftRows(x)) == x
  {
    var y := ShiftRows(x);
    Unpacked(B0(x.w0), B1(x.w1), B2(x.w2), B3(x.w3));
    Unpacked(B0(x.w1), B1(x.w2), B2(x.w3), B3(x.w0));
    Unpacked(B0(x.w2), B1(x.w3), B2(x.w0), B3(x.w1));
    Unpacked(B0(x.w3), B1(x.w0), B2(x.w1), B3(x.w2));
    Repacked(x.w0);
    Repacked(x.w1);
    Repacked(x.w2);
    Repacked(x.w3);
  }

  /** Byte substitution acts on each byte, wherever it sits. */
  lemma SubWordOfPack(f: bv8 -> bv8, a: bv8, b: bv8, c: bv8, d: bv8)
    ensures SubWord(f, Pack(a, b, c, d)) == Pack(f(a), f(b), f(c), f(d))
  {
    Unpacked(a, b, c, d);
  }

  lemma SubCommutesWithShift(f: bv8 -> bv8, x: Block)
    ensures SubBytes(f, ShiftRows(x)) == ShiftRows(SubBytes(f, x))
  {
    SubWordOfPack(f, B0(x.w0), B1(x.w1), B2(x.w2), B3(x.w3));
    SubWordOfPack(f, B0(x.w1), B1(x.w2), B2(x.w3), B3(x.w0));
    SubWordOfPack(f, B0(x.w2), B1(x.w3), B2(x.w0), B3(x.w1));
    SubWordOfPack(f, B0(x.w3), B1(x.w0), B2(x.w1), B3(x.w2));
    SubWordBytes(f, x.w0);
    SubWordBytes(f, x.w1);
    SubWordBytes(f, x.w2);
    SubWordBytes(f, x.w3);
  }

  lemma SubShiftUndone(t: Tables, x: Block)
    requires Laws(t)
    ensures InvSubShift(t, SubShift(t, x)) == x
  {
    SubCommutesWithShift(t.si, SubBytes(t.s, x));
    SubWordUndone(t, x.w0);
    SubWordUndone(t, x.w1);
    SubWordUndone(t, x.w2);
    SubWordUndone(t, x.w3);
    ShiftRowsUndone(x);
  }

  /** InvMixColumns takes a round key off a mixed state. */
  lemma MixUndone(t: Tables, x: Block, k: Block)
    requires Laws(t)
    ensures AddKey(InvMixColumns(t, AddKey(MixColumns(t, x), k)), InvMixColumns(t, k)) == x
  {
    InvMixLinear(t, Mix(t, x.w0), k.w0);
    InvMixLinear(t, Mix(t, x.w1), k.w1);
    InvMixLinear(t, Mix(t, x.w2), k.w2);
    InvMixLinear(t, Mix(t, x.w3), k.w3);
    InvMixUndoesMix(t, x.w0);
    InvMixUndoesMix(t, x.w1);
    InvMixUndoesMix(t, x.w2);
    InvMixUndoesMix(t, x.w3);
    AddKeyTwice(x, InvMixColumns(t, k));
  }

  // ---------------------------------------------------------------- the ciphers

  /** The operations of a round: the key addition, SubBytes with ShiftRows, MixColumns, and the inverses. */
  datatype Ops = Ops(add: (Block, Block) -> Block, sub: Block -> Block, mix: Block -> Block,
                     isub: Block -> Block, imix: Block -> Block)

  /** The round operations of the AES over given tables. */
  function AesOps(t: Tables): Ops {
    Ops(AddKey, x => SubShift(t, x), x => MixColumns(t, x), x => InvSubShift(t, x), x => InvMixColumns(t, x))
  }

  /** One round of decryption takes one round of encryption back. */
  ghost predicate Invertible(o: Ops) {
    && (forall x, k :: o.add(o.add(x, k), k) == x)
    && (forall x :: o.isub(o.sub(x)) == x)
    && (forall x, k :: o.add(o.imix(o.add(o.mix(x), k)), o.imix(k)) == x)
  }

  lemma AesOpsInvertible(t: Tables)
    requires Laws(t)
    ensures Invertible(AesOps(t))
  {
    var o := AesOps(t);
    forall x, k ensures o.add(o.add(x, k), k) == x { AddKeyTwice(x, k); }
    forall x ensures o.isub(o.sub(x)) == x { SubShiftUndone(t, x); }
    forall x, k ensures o.add(o.imix(o.add(o.mix(x), k)), o.imix(k)) == x { MixUndone(t, x, k); }
  }

  /** Round key i of a schedule of words. */
  function RoundKey(rk: seq<bv32>, i: nat): Block
    requires 4 * i + 4 <= |rk|
  {
    Block(rk[4 * i], rk[4 * i + 1], rk[4 * i + 2], rk[4 * i + 3])
  }

  /** The state after round i, the last round excluded. */
  function EncState(o: Ops, rk: seq<bv32>, x: Block, i: nat): Block
    requires 4 * i + 4 <= |rk|
  {
    if i == 0 then o.add(x, RoundKey(rk, 0)) else o.add(o.mix(o.sub(EncState(o, rk, x, i - 1))), RoundKey(rk, i))
  }

  function Cipher(o: Ops, rk: seq<bv32>, nr: nat, x: Block): Block
    requires nr >= 1 && 4 * nr + 4 <= |rk|
  {
    o.add(o.sub(EncState(o, rk, x, nr - 1)), RoundKey(rk, nr))
  }

  function DecState(o: Ops, rk: seq<bv32>, y: Block, i: nat): Block
    requires 4 * i + 4 <= |rk|
  {
    if i == 0 then o.add(y, RoundKey(rk, 0)) else o.add(o.imix(o.isub(DecState(o, rk, y, i - 1))), RoundKey(rk, i))
  }

  function EqInvCipher(o: Ops, rk: seq<bv32>, nr: nat, y: Block): Block
    requires nr >= 1 && 4 * nr + 4 <= |rk|
  {
    o.add(o.isub(DecState(o, rk, y, nr - 1)), RoundKey(rk, nr))
  }

  /** dk holds the round keys of rk in reverse, all but the first and the last through InvMixColumns. */
  ghost predicate InverseSchedule(o: Ops, rk: seq<bv32>, dk: seq<bv32>, nr: nat) {
    && nr >= 1 && 4 * nr + 4 <= |rk| && 4 * nr + 4 <= |dk|
    && RoundKey(dk, 0) == RoundKey(rk, nr) && RoundKey(dk, nr) == RoundKey(rk, 0)
    && forall j :: 0 < j < nr ==> RoundKey(dk, j) == o.imix(RoundKey(rk, nr - j))
  }

  lemma {:induction false} DecryptionRetraces(o: Ops, rk: seq<bv32>, dk: seq<bv32>, nr: nat, x: Block, j: nat)
    requires Invertible(o) && InverseSchedule(o, rk, dk, nr) && j < nr
    ensures DecState(o, dk, Cipher(o, rk, nr, x), j) == o.sub(EncState(o, rk, x, nr - 1 - j))
  {
    if j > 0 {
      DecryptionRetraces(o, rk, dk, nr, x, j - 1);
      var z, k := o.sub(EncState(o, rk, x, nr - 1 - j)), RoundKey(rk, nr - j);
      assert EncState(o, rk, x, nr - j) == o.add(o.mix(z), k);
      assert o.isub(o.sub(EncState(o, rk, x, nr - j))) == EncState(o, rk, x, nr - j);
      assert RoundKey(dk, j) == o.imix(k);
    }
  }

  /** Decryption under the inverse schedule undoes encryption, for any number of rounds. */
  lemma EqInvCipherUndoesCipher(o: Ops, rk: seq<bv32>, dk: seq<bv32>, nr: nat, x: Block)
    requires Invertible(o) && InverseSchedule(o, rk, dk, nr)
    ensures EqInvCipher(o, dk, nr, Cipher(o, rk, nr, x)) == x
  {
    DecryptionRetraces(o, rk, dk, nr, x, nr - 1);
  }

  // ---------------------------------------------------------------- key expansion

  function RotWord(w: bv32): bv32 { Pack(B1(w), B2(w), B3(w), B0(w)) }

  /** The round constant x^(i-1) in the top byte. */
  function Rcon(t: Tables, i: nat): bv32 { Pack(Power(t, i), 0, 0, 0) }

  /** Word i of the schedule that KeyExpansion computes from the nk words of the key. */
  function ExpandedWord(t: Tables, key: seq<bv32>, i: nat): bv32
    requires |key| >= 4
  {
    var nk := |key|;
    if i < nk then key[i]
    else
      var temp := ExpandedWord(t, key, i - 1);
      var g := if i % nk == 0 then XorW(SubWord(t.s, RotWord(temp)), Rcon(t, i / nk))
               else if nk > 6 && i % nk == 4 then SubWord(t.s, temp)
               else temp;
      XorW(ExpandedWord(t, key, i - nk), g)
  }

  /** FIPS 197, figure 4. */
  function Rounds(nk: nat): nat { nk + 6 }

  ghost predicate IsSchedule(t: Tables, key: seq<bv32>, rk: seq<bv32>)
    requires |key| >= 4
  {
    4 * Rounds(|key|) + 4 <= |rk| && forall i :: 0 <= i < 4 * Rounds(|key|) + 4 ==> rk[i] == ExpandedWord(t, key, i)
  }
}
