/** The S-box of FIPS 197, section 5.1.1: the multiplicative inverse in the field with 256 elements, followed by an
    affine map. The table in aes.c is proved to hold exactly this. */
module AesSbox {
  import opened AesTables

  /** Multiplication by x, as in section 4.2.1. */
  function Times2(a: bv8): bv8 { (a << 1) ^ (if a & 0x80 != 0 then 0x1b else 0) }

  /** The product of two polynomials modulo x^8 + x^4 + x^3 + x + 1: b times each power of x that a has. */
  function Product(a: bv8, b: bv8): bv8 {
    var b1 := Times2(b);
    var b2 := Times2(b1);
    var b3 := Times2(b2);
    var b4 := Times2(b3);
    var b5 := Times2(b4);
    var b6 := Times2(b5);
    var b7 := Times2(b6);
    (if a & 0x01 != 0 then b else 0) ^ (if a & 0x02 != 0 then b1 else 0) ^
    (if a & 0x04 != 0 then b2 else 0) ^ (if a & 0x08 != 0 then b3 else 0) ^
    (if a & 0x10 != 0 then b4 else 0) ^ (if a & 0x20 != 0 then b5 else 0) ^
    (if a & 0x40 != 0 then b6 else 0) ^ (if a & 0x80 != 0 then b7 else 0)
  }

  function Turned(y: bv8, n: nat): bv8
    requires 0 < n < 8
  {
    (y << n) | (y >> (8 - n))
  }

  /** The affine map. */
  function Affine(y: bv8): bv8 { y ^ Turned(y, 1) ^ Turned(y, 2) ^ Turned(y, 3) ^ Turned(y, 4) ^ 0x63 }

  function Unaffine(z: bv8): bv8 { Turned(z, 1) ^ Turned(z, 3) ^ Turned(z, 6) ^ 0x05 }

  lemma AffineUndone(z: bv8)
    ensures Affine(Unaffine(z)) == z
  {
  }

  /** z is the image of the inverse of x; 0 counts as its own inverse. */
  predicate IsSub(x: bv8, z: bv8) {
    var y := Unaffine(z);
    if x == 0 then y == 0 else Product(x, y) == 1
  }

  lemma Row0(x: bv8)
    requires x < 0x10
    ensures IsSub(x, S0(x))
  {
  }

  lemma Row1(x: bv8)
    requires 0x10 <= x < 0x20
    ensures IsSub(x, S1(x))
  {
  }

  lemma Row2(x: bv8)
    requires 0x20 <= x < 0x30
    ensures IsSub(x, S2(x))
  {
  }

  lemma Row3(x: bv8)
    requires 0x30 <= x < 0x40
    ensures IsSub(x, S3(x))
  {
  }

  lemma Row4(x: bv8)
    requires 0x40 <= x < 0x50
    ensures IsSub(x, S4(x))
  {
  }

  lemma Row5(x: bv8)
    requires 0x50 <= x < 0x60
    ensures IsSub(x, S5(x))
  {
  }

  lemma Row6(x: bv8)
    requires 0x60 <= x < 0x70
    ensures IsSub(x, S6(x))
  {
  }

  lemma Row7(x: bv8)
    requires 0x70 <= x < 0x80
    ensures IsSub(x, S7(x))
  {
  }

  lemma Row8(x: bv8)
    requires 0x80 <= x < 0x90
    ensures IsSub(x, S8(x))
  {
  }

  lemma Row9(x: bv8)
    requires 0x90 <= x < 0xa0
    ensures IsSub(x, S9(x))
  {
  }

  lemma Rowa(x: bv8)
    requires 0xa0 <= x < 0xb0
    ensures IsSub(x, Sa(x))
  {
  }

  lemma Rowb(x: bv8)
    requires 0xb0 <= x < 0xc0
    ensures IsSub(x, Sb(x))
  {
  }

  lemma Rowc(x: bv8)
    requires 0xc0 <= x < 0xd0
    ensures IsSub(x, Sc(x))
  {
  }

  lemma Rowd(x: bv8)
    requires 0xd0 <= x < 0xe0
    ensures IsSub(x, Sd(x))
  {
  }

  lemma Rowe(x: bv8)
    requires 0xe0 <= x < 0xf0
    ensures IsSub(x, Se(x))
  {
  }

  lemma Rowf(x: bv8)
    requires 0xf0 <= x
    ensures IsSub(x, Sf(x))
  {
  }

  lemma Rows0(x: bv8)
    requires x < 0x40
    ensures IsSub(x, S(x))
  {
    if x < 0x10 { Row0(x); } else if x < 0x20 { Row1(x); } else if x < 0x30 { Row2(x); } else { Row3(x); }
  }

  lemma Rows4(x: bv8)
    requires 0x40 <= x < 0x80
    ensures IsSub(x, S(x))
  {
    if x < 0x50 { Row4(x); } else if x < 0x60 { Row5(x); } else if x < 0x70 { Row6(x); } else { Row7(x); }
  }

  lemma Rows8(x: bv8)
    requires 0x80 <= x < 0xc0
    ensures IsSub(x, S(x))
  {
    if x < 0x90 { Row8(x); } else if x < 0xa0 { Row9(x); } else if x < 0xb0 { Rowa(x); } else { Rowb(x); }
  }

  lemma Rowsc(x: bv8)
    requires 0xc0 <= x
    ensures IsSub(x, S(x))
  {
    if x < 0xd0 { Rowc(x); } else if x < 0xe0 { Rowd(x); } else if x < 0xf0 { Rowe(x); } else { Rowf(x); }
  }

  /** SubBytes of FIPS 197, for every byte. */
  lemma SboxIs(x: bv8)
    ensures exists y :: S(x) == Affine(y) && if x == 0 then y == 0 else Product(x, y) == 1
  {
    if x < 0x40 { Rows0(x); } else if x < 0x80 { Rows4(x); } else if x < 0xc0 { Rows8(x); } else { Rowsc(x); }
    AffineUndone(S(x));
    assert IsSub(x, S(x));
  }

  /** The multiplication that MixColumns uses. */
  lemma XTimeIs(x: bv8)
    ensures XTime(x) == Product(2, x)
  {
  }
}
