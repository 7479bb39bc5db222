/** Byte and word arithmetic of the AES (FIPS 197, sections 4.2, 4.3, 5.1.3 and 5.3.3), over the tables
    that aes.c uses. Only what the proofs need is asked of the tables: Si undoes S, multiplication by
    x is linear, and rcon holds the powers of x. Module AesTables shows that the actual tables obey this. */
module AesField {

  datatype Tables = Tables(s: bv8 -> bv8, si: bv8 -> bv8, xt: bv8 -> bv8, rcon: nat -> bv32)

  ghost predicate SboxLaw(t: Tables) { forall x :: t.si(t.s(x)) == x }

  ghost predicate LinearLaw(t: Tables) { forall x, y :: t.xt(Xor(x, y)) == Xor(t.xt(x), t.xt(y)) }

  ghost predicate RconLaw(t: Tables) { forall i: nat :: i < 10 ==> t.rcon(i) == Pack(Power(t, i + 1), 0, 0, 0) }

  ghost predicate Laws(t: Tables) { SboxLaw(t) && LinearLaw(t) && RconLaw(t) }

  /** x^(i-1). */
  function Power(t: Tables, i: nat): bv8 { if i <= 1 then 1 else t.xt(Power(t, i - 1)) }

  function Xor(a: bv8, b: bv8): bv8 { a ^ b }

  function XorW(v: bv32, w: bv32): bv32 { v ^ w }

  // ---------------------------------------------------------------- words and bytes

  function B0(w: bv32): bv8 { (w >> 24) as bv8 }

  function B1(w: bv32): bv8 { ((w >> 16) & 0xff) as bv8 }

  function B2(w: bv32): bv8 { ((w >> 8) & 0xff) as bv8 }

  function B3(w: bv32): bv8 { (w & 0xff) as bv8 }

  /** GETU32. */
  function Pack(a: bv8, b: bv8, c: bv8, d: bv8): bv32 {
    ((a as bv32) << 24) ^ ((b as bv32) << 16) ^ ((c as bv32) << 8) ^ (d as bv32)
  }

  lemma Unpacked(a: bv8, b: bv8, c: bv8, d: bv8)
    ensures B0(Pack(a, b, c, d)) == a && B1(Pack(a, b, c, d)) == b
    ensures B2(Pack(a, b, c, d)) == c && B3(Pack(a, b, c, d)) == d
  {
  }

  lemma Repacked(w: bv32)
    ensures Pack(B0(w), B1(w), B2(w), B3(w)) == w
  {
  }

  lemma PackXor(a: bv8, b: bv8, c: bv8, d: bv8, e: bv8, f: bv8, g: bv8, h: bv8)
    ensures XorW(Pack(a, b, c, d), Pack(e, f, g, h)) == Pack(Xor(a, e), Xor(b, f), Xor(c, g), Xor(d, h))
  {
  }

  lemma XorB0(v: bv32, w: bv32)
    ensures B0(XorW(v, w)) == Xor(B0(v), B0(w))
  {
  }

  lemma XorB1(v: bv32, w: bv32)
    ensures B1(XorW(v, w)) == Xor(B1(v), B1(w))
  {
  }

  lemma XorB2(v: bv32, w: bv32)
    ensures B2(XorW(v, w)) == Xor(B2(v), B2(w))
  {
  }

  lemma XorB3(v: bv32, w: bv32)
    ensures B3(XorW(v, w)) == Xor(B3(v), B3(w))
  {
  }

  // ---------------------------------------------------------------- sums

  function Sum4(a: bv8, b: bv8, c: bv8, d: bv8): bv8 { Xor(Xor(a, b), Xor(c, d)) }

  lemma Assoc(p: bv8, q: bv8, r: bv8)
    ensures Xor(Xor(p, q), r) == Xor(p, Xor(q, r))
  {
  }

  lemma Comm(p: bv8, q: bv8)
    ensures Xor(p, q) == Xor(q, p)
  {
  }

  lemma Pair(p: bv8, q: bv8, r: bv8, s: bv8)
    ensures Xor(Xor(p, q), Xor(r, s)) == Xor(Xor(p, r), Xor(q, s))
  {
    Assoc(p, q, Xor(r, s));
    Assoc(q, r, s);
    Comm(q, r);
    Assoc(r, q, s);
    Assoc(p, r, Xor(q, s));
  }

  lemma AddSums(a: bv8, b: bv8, c: bv8, d: bv8, e: bv8, f: bv8, g: bv8, h: bv8)
    ensures Xor(Sum4(a, b, c, d), Sum4(e, f, g, h)) == Sum4(Xor(a, e), Xor(b, f), Xor(c, g), Xor(d, h))
  {
    Pair(Xor(a, b), Xor(c, d), Xor(e, f), Xor(g, h));
    Pair(a, b, e, f);
    Pair(c, d, g, h);
  }

  /** Four sums of four, added by rows or by columns. */
  lemma Transpose(a: bv8, b: bv8, c: bv8, d: bv8, e: bv8, f: bv8, g: bv8, h: bv8,
                  i: bv8, j: bv8, k: bv8, l: bv8, m: bv8, n: bv8, o: bv8, p: bv8)
    ensures Sum4(Sum4(a, b, c, d), Sum4(e, f, g, h), Sum4(i, j, k, l), Sum4(m, n, o, p)) ==
            Sum4(Sum4(a, e, i, m), Sum4(b, f, j, n), Sum4(c, g, k, o), Sum4(d, h, l, p))
  {
    AddSums(a, b, c, d, e, f, g, h);
    AddSums(i, j, k, l, m, n, o, p);
    AddSums(Xor(a, e), Xor(b, f), Xor(c, g), Xor(d, h), Xor(i, m), Xor(j, n), Xor(k, o), Xor(l, p));
  }

  lemma OnlyFirst(a: bv8)
    ensures Sum4(a, 0, 0, 0) == a
  {
  }

  // ---------------------------------------------------------------- multiplication by constants

  function X4(t: Tables, x: bv8): bv8 { t.xt(t.xt(x)) }

  function X8(t: Tables, x: bv8): bv8 { t.xt(t.xt(t.xt(x))) }

  function Mul2(t: Tables, x: bv8): bv8 { t.xt(x) }

  function Mul3(t: Tables, x: bv8): bv8 { Xor(t.xt(x), x) }

  function Mul9(t: Tables, x: bv8): bv8 { Xor(X8(t, x), x) }

  function MulB(t: Tables, x: bv8): bv8 { Xor(Xor(X8(t, x), t.xt(x)), x) }

  function MulD(t: Tables, x: bv8): bv8 { Xor(Xor(X8(t, x), X4(t, x)), x) }

  function MulE(t: Tables, x: bv8): bv8 { Xor(Xor(X8(t, x), X4(t, x)), t.xt(x)) }

  function MixByte(t: Tables, a: bv8, b: bv8, c: bv8, d: bv8): bv8 { Sum4(Mul2(t, a), Mul3(t, b), c, d) }

  function InvMixByte(t: Tables, a: bv8, b: bv8, c: bv8, d: bv8): bv8 {
    Sum4(MulE(t, a), MulB(t, b), MulD(t, c), Mul9(t, d))
  }

  /** MixColumns on one column. */
  function Mix(t: Tables, w: bv32): bv32 {
    var a, b, c, d := B0(w), B1(w), B2(w), B3(w);
    Pack(MixByte(t, a, b, c, d), MixByte(t, b, c, d, a), MixByte(t, c, d, a, b), MixByte(t, d, a, b, c))
  }

  /** InvMixColumns on one column. */
  function InvMix(t: Tables, w: bv32): bv32 {
    var a, b, c, d := B0(w), B1(w), B2(w), B3(w);
    Pack(InvMixByte(t, a, b, c, d), InvMixByte(t, b, c, d, a), InvMixByte(t, c, d, a, b), InvMixByte(t, d, a, b, c))
  }

  // ---------------------------------------------------------------- linearity

  lemma LinearMul9(t: Tables, x: bv8, y: bv8)
    requires Laws(t)
    ensures Mul9(t, Xor(x, y)) == Xor(Mul9(t, x), Mul9(t, y))
  {
    Pair(X8(t, x), X8(t, y), x, y);
  }

  lemma LinearMulB(t: Tables, x: bv8, y: bv8)
    requires Laws(t)
    ensures MulB(t, Xor(x, y)) == Xor(MulB(t, x), MulB(t, y))
  {
    Pair(X8(t, x), X8(t, y), t.xt(x), t.xt(y));
    Pair(Xor(X8(t, x), t.xt(x)), Xor(X8(t, y), t.xt(y)), x, y);
  }

  lemma LinearMulD(t: Tables, x: bv8, y: bv8)
    requires Laws(t)
    ensures MulD(t, Xor(x, y)) == Xor(MulD(t, x), MulD(t, y))
  {
    Pair(X8(t, x), X8(t, y), X4(t, x), X4(t, y));
    Pair(Xor(X8(t, x), X4(t, x)), Xor(X8(t, y), X4(t, y)), x, y);
  }

  lemma LinearMulE(t: Tables, x: bv8, y: bv8)
    requires Laws(t)
    ensures MulE(t, Xor(x, y)) == Xor(MulE(t, x), MulE(t, y))
  {
    Pair(X8(t, x), X8(t, y), X4(t, x), X4(t, y));
    Pair(Xor(X8(t, x), X4(t, x)), Xor(X8(t, y), X4(t, y)), t.xt(x), t.xt(y));
  }

  lemma LinearInvMixByte(t: Tables, a: bv8, b: bv8, c: bv8, d: bv8, e: bv8, f: bv8, g: bv8, h: bv8)
    requires Laws(t)
    ensures InvMixByte(t, Xor(a, e), Xor(b, f), Xor(c, g), Xor(d, h)) ==
            Xor(InvMixByte(t, a, b, c, d), InvMixByte(t, e, f, g, h))
  {
    LinearMulE(t, a, e);
    LinearMulB(t, b, f);
    LinearMulD(t, c, g);
    LinearMul9(t, d, h);
    AddSums(MulE(t, a), MulB(t, b), MulD(t, c), Mul9(t, d), MulE(t, e), MulB(t, f), MulD(t, g), Mul9(t, h));
  }

  /** InvMixColumns is linear. */
  lemma InvMixLinear(t: Tables, v: bv32, w: bv32)
    requires Laws(t)
    ensures InvMix(t, XorW(v, w)) == XorW(InvMix(t, v), InvMix(t, w))
  {
    var a, b, c, d := B0(v), B1(v), B2(v), B3(v);
    var e, f, g, h := B0(w), B1(w), B2(w), B3(w);
    XorB0(v, w);
    XorB1(v, w);
    XorB2(v, w);
    XorB3(v, w);
    LinearInvMixByte(t, a, b, c, d, e, f, g, h);
    LinearInvMixByte(t, b, c, d, a, f, g, h, e);
    LinearInvMixByte(t, c, d, a, b, g, h, e, f);
    LinearInvMixByte(t, d, a, b, c, h, e, f, g);
    PackXor(InvMixByte(t, a, b, c, d), InvMixByte(t, b, c, d, a), InvMixByte(t, c, d, a, b), InvMixByte(t, d, a, b, c),
            InvMixByte(t, e, f, g, h), InvMixByte(t, f, g, h, e), InvMixByte(t, g, h, e, f), InvMixByte(t, h, e, f, g));
  }

  // ---------------------------------------------------------------- InvMixColumns undoes MixColumns

  lemma Same(p: bv8)
    ensures Xor(p, p) == 0
  {
  }

  lemma Zero(p: bv8)
    ensures Xor(p, 0) == p && Xor(0, p) == p
  {
  }

  lemma Swap(p: bv8, q: bv8, r: bv8)
    ensures Xor(Xor(p, q), r) == Xor(Xor(p, r), q)
  {
    Assoc(p, q, r);
    Comm(q, r);
    Assoc(p, r, q);
  }

  lemma Peel(p: bv8, q: bv8)
    ensures Xor(Xor(p, q), p) == q && Xor(p, Xor(p, q)) == q
  {
    Swap(p, q, p);
    Same(p);
    Zero(q);
    Comm(p, Xor(p, q));
  }

  /** {0d} + {09} = {04}, {0e} + {0b} = {05}, {0b} + {0d} = {06} and {0e} + {09} = {07}, for any powers. */
  lemma DPlus9(p8: bv8, p4: bv8, x: bv8)
    ensures Xor(Xor(Xor(p8, p4), x), Xor(p8, x)) == p4
  {
    Pair(Xor(p8, p4), x, p8, x);
    Peel(p8, p4);
    Same(x);
    Zero(p4);
  }

  lemma EPlusB(p8: bv8, p4: bv8, p2: bv8, x: bv8)
    ensures Xor(Xor(Xor(p8, p4), p2), Xor(Xor(p8, p2), x)) == Xor(p4, x)
  {
    Assoc(p8, p4, p2);
    Assoc(p8, p2, x);
    Pair(p8, Xor(p4, p2), p8, Xor(p2, x));
    Same(p8);
    Zero(Xor(Xor(p4, p2), Xor(p2, x)));
    Assoc(p4, p2, Xor(p2, x));
    Peel(p2, x);
  }

  lemma BPlusD(p8: bv8, p4: bv8, p2: bv8, x: bv8)
    ensures Xor(Xor(Xor(p8, p2), x), Xor(Xor(p8, p4), x)) == Xor(p2, p4)
  {
    Pair(Xor(p8, p2), x, Xor(p8, p4), x);
    Same(x);
    Pair(p8, p2, p8, p4);
    Same(p8);
    Zero(Xor(p2, p4));
  }

  lemma EPlus9(p8: bv8, p4: bv8, p2: bv8, x: bv8)
    ensures Xor(Xor(Xor(p8, p4), p2), Xor(p8, x)) == Xor(p4, Xor(p2, x))
  {
    Pair(Xor(p8, p4), p2, p8, x);
    Peel(p8, p4);
  }

  /** {0e}{02} + {0b} + {0d} + {09}{03} = {01}. */
  lemma FirstCoefficient(t: Tables, a: bv8)
    requires Laws(t)
    ensures Sum4(MulE(t, Mul2(t, a)), MulB(t, a), MulD(t, a), Mul9(t, Mul3(t, a))) == a
  {
    var y := t.xt(a);
    var a4, a8, a16 := t.xt(y), X4(t, y), X8(t, y);
    var e, b, d, n', n := MulE(t, y), MulB(t, a), MulD(t, a), Mul9(t, y), Mul9(t, a);
    LinearMul9(t, y, a);
    Assoc(d, n', n);
    Assoc(Xor(e, b), Xor(d, n'), n);
    Comm(d, n');
    Pair(e, b, n', d);
    EPlus9(a16, a8, a4, y);
    BPlusD(a8, a4, y, a);
    FirstSum(a8, a4, y, a);
  }

  lemma FirstSum(a8: bv8, a4: bv8, a2: bv8, a: bv8)
    ensures Xor(Xor(Xor(a8, Xor(a4, a2)), Xor(a2, a4)), Xor(a8, a)) == a
  {
    Comm(a2, a4);
    Assoc(a8, Xor(a4, a2), Xor(a4, a2));
    Same(Xor(a4, a2));
    Zero(a8);
    Peel(a8, a);
  }

  /** {0e}{03} + {0b}{02} + {0d} + {09} = {00}. */
  lemma SecondCoefficient(t: Tables, b: bv8)
    requires Laws(t)
    ensures Sum4(MulE(t, Mul3(t, b)), MulB(t, Mul2(t, b)), MulD(t, b), Mul9(t, b)) == 0
  {
    var y := t.xt(b);
    var b4, b8 := t.xt(y), X4(t, y);
    LinearMulE(t, y, b);
    Swap(MulE(t, y), MulE(t, b), MulB(t, y));
    EPlusB(X8(t, y), b8, b4, y);
    Pair(b8, y, Xor(b8, b4), y);
    Peel(b8, b4);
    Same(y);
    Zero(b4);
    DPlus9(b8, b4, b);
    Same(b4);
  }

  /** {0e} + {0b}{03} + {0d}{02} + {09} = {00}. */
  lemma ThirdCoefficient(t: Tables, c: bv8)
    requires Laws(t)
    ensures Sum4(MulE(t, c), MulB(t, Mul3(t, c)), MulD(t, Mul2(t, c)), Mul9(t, c)) == 0
  {
    var y := t.xt(c);
    var c4, c8 := t.xt(y), X4(t, y);
    var e, b', b, d, n := MulE(t, c), MulB(t, y), MulB(t, c), MulD(t, y), Mul9(t, c);
    LinearMulB(t, y, c);
    Comm(b', b);
    Assoc(e, b, b');
    Assoc(Xor(Xor(e, b), b'), d, n);
    Assoc(Xor(e, b), b', d);
    EPlusB(c8, c4, y, c);
    BPlusD(X8(t, y), c8, c4, y);
    ThirdSum(c8, c4, c);
  }

  lemma ThirdSum(c8: bv8, c4: bv8, c: bv8)
    ensures Xor(Xor(Xor(c4, c), Xor(c4, c8)), Xor(c8, c)) == 0
  {
    Pair(c4, c, c4, c8);
    Same(c4);
    Zero(Xor(c, c8));
    Comm(c, c8);
    Same(Xor(c8, c));
  }

  /** {0e} + {0b} + {0d}{03} + {09}{02} = {00}. */
  lemma FourthCoefficient(t: Tables, d: bv8)
    requires Laws(t)
    ensures Sum4(MulE(t, d), MulB(t, d), MulD(t, Mul3(t, d)), Mul9(t, Mul2(t, d))) == 0
  {
    var y := t.xt(d);
    var d4, d8 := t.xt(y), X4(t, y);
    LinearMulD(t, y, d);
    Swap(MulD(t, y), MulD(t, d), Mul9(t, y));
    DPlus9(X8(t, y), d8, y);
    Assoc(d8, Xor(d8, d4), d);
    Peel(d8, d4);
    EPlusB(d8, d4, y, d);
    Same(Xor(d4, d));
  }

  lemma LinearSumE(t: Tables, a: bv8, b: bv8, c: bv8, d: bv8)
    requires Laws(t)
    ensures MulE(t, Sum4(a, b, c, d)) == Sum4(MulE(t, a), MulE(t, b), MulE(t, c), MulE(t, d))
  {
    LinearMulE(t, Xor(a, b), Xor(c, d));
    LinearMulE(t, a, b);
    LinearMulE(t, c, d);
  }

  lemma LinearSumB(t: Tables, a: bv8, b: bv8, c: bv8, d: bv8)
    requires Laws(t)
    ensures MulB(t, Sum4(a, b, c, d)) == Sum4(MulB(t, a), MulB(t, b), MulB(t, c), MulB(t, d))
  {
    LinearMulB(t, Xor(a, b), Xor(c, d));
    LinearMulB(t, a, b);
    LinearMulB(t, c, d);
  }

  lemma LinearSumD(t: Tables, a: bv8, b: bv8, c: bv8, d: bv8)
    requires Laws(t)
    ensures MulD(t, Sum4(a, b, c, d)) == Sum4(MulD(t, a), MulD(t, b), MulD(t, c), MulD(t, d))
  {
    LinearMulD(t, Xor(a, b), Xor(c, d));
    LinearMulD(t, a, b);
    LinearMulD(t, c, d);
  }

  lemma LinearSum9(t: Tables, a: bv8, b: bv8, c: bv8, d: bv8)
    requires Laws(t)
    ensures Mul9(t, Sum4(a, b, c, d)) == Sum4(Mul9(t, a), Mul9(t, b), Mul9(t, c), Mul9(t, d))
  {
    LinearMul9(t, Xor(a, b), Xor(c, d));
    LinearMul9(t, a, b);
    LinearMul9(t, c, d);
  }

  lemma Rotate(p: bv8, q: bv8, r: bv8, s: bv8)
    ensures Sum4(p, q, r, s) == Sum4(s, p, q, r)
  {
    Comm(r, s);
    Pair(p, q, s, r);
    Comm(p, s);
  }

  lemma MixedByte(t: Tables, a: bv8, b: bv8, c: bv8, d: bv8)
    requires Laws(t)
    ensures InvMixByte(t, MixByte(t, a, b, c, d), MixByte(t, b, c, d, a), MixByte(t, c, d, a, b),
                       MixByte(t, d, a, b, c)) == a
  {
    var a2, b2, c2, d2 := Mul2(t, a), Mul2(t, b), Mul2(t, c), Mul2(t, d);
    var a3, b3, c3, d3 := Mul3(t, a), Mul3(t, b), Mul3(t, c), Mul3(t, d);
    LinearSumE(t, a2, b3, c, d);
    LinearSumB(t, b2, c3, d, a);
    Rotate(MulB(t, b2), MulB(t, c3), MulB(t, d), MulB(t, a));
    LinearSumD(t, c2, d3, a, b);
    Comm(Xor(MulD(t, c2), MulD(t, d3)), Xor(MulD(t, a), MulD(t, b)));
    LinearSum9(t, d2, a3, b, c);
    Rotate(Mul9(t, a3), Mul9(t, b), Mul9(t, c), Mul9(t, d2));
    Transpose(MulE(t, a2), MulE(t, b3), MulE(t, c), MulE(t, d),
              MulB(t, a), MulB(t, b2), MulB(t, c3), MulB(t, d),
              MulD(t, a), MulD(t, b), MulD(t, c2), MulD(t, d3),
              Mul9(t, a3), Mul9(t, b), Mul9(t, c), Mul9(t, d2));
    FirstCoefficient(t, a);
    SecondCoefficient(t, b);
    ThirdCoefficient(t, c);
    FourthCoefficient(t, d);
    OnlyFirst(a);
  }

  /** InvMixColumns undoes MixColumns. */
  lemma InvMixUndoesMix(t: Tables, w: bv32)
    requires Laws(t)
    ensures InvMix(t, Mix(t, w)) == w
  {
    var a, b, c, d := B0(w), B1(w), B2(w), B3(w);
    Unpacked(MixByte(t, a, b, c, d), MixByte(t, b, c, d, a), MixByte(t, c, d, a, b), MixByte(t, d, a, b, c));
    MixedByte(t, a, b, c, d);
    MixedByte(t, b, c, d, a);
    MixedByte(t, c, d, a, b);
    MixedByte(t, d, a, b, c);
    Repacked(w);
  }
}
