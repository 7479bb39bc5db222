/** Bit operations on machine words and searches in bitmaps (bitops.h, bitops.c).

    An `unsigned long` is its numeric value below 2^64, and bit k of it is the k-th binary digit. The
    specification reads a bitmap as a plain sequence of booleans, `BitAt`. */
module Bitops {

  /** BITS_PER_LONG. */
  const BITS: nat := 64

  const ONES: nat := 0xffff_ffff_ffff_ffff

  type Word = w: nat | w <= ONES

  function Pow2(n: nat): (p: nat)
    ensures p >= 1
  {
    if n == 0 then 1 else 2 * Pow2(n - 1)
  }

  predicate Bit(w: nat, k: nat) { if k == 0 then w % 2 == 1 else Bit(w / 2, k - 1) }

  function Digit(b: bool): nat { if b then 1 else 0 }

  lemma WordSize()
    ensures Pow2(BITS) == ONES + 1
  {
    assert Pow2(8) == 256 by { assert Pow2(4) == 16; }
    PowAdd(8, 8);
    assert Pow2(16) == 0x1_0000;
    PowAdd(16, 16);
    assert Pow2(32) == 0x1_0000_0000;
    PowAdd(32, 32);
  }

  lemma {:induction false} PowAdd(m: nat, n: nat)
    ensures Pow2(m + n) == Pow2(m) * Pow2(n)
    decreases m
  {
    if m > 0 { PowAdd(m - 1, n); }
  }

  function And(a: nat, b: nat): (r: nat)
    ensures r <= a
  {
    if a == 0 || b == 0 then 0 else Digit(a % 2 == 1 && b % 2 == 1) + 2 * And(a / 2, b / 2)
  }

  function Or(a: nat, b: nat): nat
    decreases a + b
  {
    if a == 0 && b == 0 then 0 else Digit(a % 2 == 1 || b % 2 == 1) + 2 * Or(a / 2, b / 2)
  }

  function Xor(a: nat, b: nat): nat
    decreases a + b
  {
    if a == 0 && b == 0 then 0 else Digit(a % 2 != b % 2) + 2 * Xor(a / 2, b / 2)
  }

  function Not(a: Word): Word { ONES - a }

  function Shr(w: nat, n: nat): (r: nat)
    ensures r <= w
  {
    if n == 0 then w else Shr(w / 2, n - 1)
  }

  /** Twice the value, modulo 2^64. */
  function Double(w: Word): Word { var d: nat := w + w; if d > ONES then d - (ONES + 1) else d }

  function Shl(w: Word, n: nat): Word { if n == 0 then w else Double(Shl(w, n - 1)) }

  // ---------------------------------------------------------------- the bits of combined words

  lemma {:induction false} BitAnd(a: nat, b: nat, k: nat)
    ensures Bit(And(a, b), k) <==> Bit(a, k) && Bit(b, k)
    decreases k
  {
    if a == 0 || b == 0 {
      BitZero(k);
    } else if k > 0 {
      assert And(a, b) / 2 == And(a / 2, b / 2);
      BitAnd(a / 2, b / 2, k - 1);
    }
  }

  lemma {:induction false} BitOr(a: nat, b: nat, k: nat)
    ensures Bit(Or(a, b), k) <==> Bit(a, k) || Bit(b, k)
    decreases k
  {
    if a == 0 && b == 0 {
      BitZero(k);
    } else if k > 0 {
      assert Or(a, b) / 2 == Or(a / 2, b / 2);
      BitOr(a / 2, b / 2, k - 1);
    }
  }

  lemma {:induction false} BitXor(a: nat, b: nat, k: nat)
    ensures Bit(Xor(a, b), k) <==> Bit(a, k) != Bit(b, k)
    decreases k
  {
    if a == 0 && b == 0 {
      BitZero(k);
    } else if k > 0 {
      assert Xor(a, b) / 2 == Xor(a / 2, b / 2);
      BitXor(a / 2, b / 2, k - 1);
    }
  }

  lemma {:induction false} OrFits(a: nat, b: nat, n: nat)
    requires a < Pow2(n) && b < Pow2(n)
    ensures Or(a, b) < Pow2(n) && Xor(a, b) < Pow2(n)
    decreases n
  {
    if n > 0 { OrFits(a / 2, b / 2, n - 1); }
  }

  lemma WordsFit(a: Word, b: Word)
    ensures Or(a, b) <= ONES && Xor(a, b) <= ONES
  {
    WordSize();
    OrFits(a, b, BITS);
  }

  lemma {:induction false} BitZero(k: nat)
    ensures !Bit(0, k)
  {
    if k > 0 { BitZero(k - 1); }
  }

  /** A number below 2^n has no bit at n or above. */
  lemma {:induction false} BitBeyond(w: nat, n: nat, k: nat)
    requires w < Pow2(n) && k >= n
    ensures !Bit(w, k)
    decreases n
  {
    if n == 0 { BitZero(k); } else { BitBeyond(w / 2, n - 1, k - 1); }
  }

  /** And a number that is not 0 has one below n. */
  lemma {:induction false} SomeBit(w: nat, n: nat) returns (k: nat)
    requires 0 < w < Pow2(n)
    ensures k < n && Bit(w, k)
    decreases n
  {
    if w % 2 == 1 {
      k := 0;
    } else {
      k := SomeBit(w / 2, n - 1);
      k := k + 1;
    }
  }

  lemma {:induction false} BitComplement(a: nat, n: nat, k: nat)
    requires a < Pow2(n) && k < n
    ensures Bit(Pow2(n) - 1 - a, k) <==> !Bit(a, k)
    decreases n
  {
    if k > 0 {
      assert (Pow2(n) - 1 - a) / 2 == Pow2(n - 1) - 1 - a / 2;
      BitComplement(a / 2, n - 1, k - 1);
    }
  }

  lemma BitNot(a: Word, k: nat)
    requires k < BITS
    ensures Bit(Not(a), k) <==> !Bit(a, k)
  {
    WordSize();
    BitComplement(a, BITS, k);
  }

  lemma {:induction false} BitShr(w: nat, n: nat, k: nat)
    ensures Bit(Shr(w, n), k) <==> Bit(w, n + k)
    decreases n
  {
    if n > 0 { BitShr(w / 2, n - 1, k); }
  }

  lemma {:induction false} BitDrop(w: nat, n: nat, k: nat)
    requires k < n && w >= Pow2(n)
    ensures Bit(w - Pow2(n), k) <==> Bit(w, k)
    decreases n
  {
    if k > 0 {
      assert (w - Pow2(n)) / 2 == w / 2 - Pow2(n - 1);
      BitDrop(w / 2, n - 1, k - 1);
    }
  }

  lemma BitDouble(w: Word, k: nat)
    requires k < BITS
    ensures Bit(Double(w), k) <==> k > 0 && Bit(w, k - 1)
  {
    WordSize();
    var d: nat := w + w;
    if d > ONES { BitDrop(d, BITS, k); }
    assert d % 2 == 0 && d / 2 == w;
  }

  lemma {:induction false} BitShl(w: Word, n: nat, k: nat)
    requires k < BITS
    ensures Bit(Shl(w, n), k) <==> k >= n && Bit(w, k - n)
    decreases n
  {
    if n > 0 {
      BitDouble(Shl(w, n - 1), k);
      if k > 0 { BitShl(w, n - 1, k - 1); }
    }
  }

  /** (1 << n) - 1 has exactly the bits below n. */
  lemma {:induction false} BitLowMask(n: nat, k: nat)
    ensures Bit(Pow2(n) - 1, k) <==> k < n
    decreases n
  {
    if n == 0 {
      BitZero(k);
    } else {
      assert (Pow2(n) - 1) / 2 == Pow2(n - 1) - 1;
      if k > 0 { BitLowMask(n - 1, k - 1); }
    }
  }

  lemma BitOnes(k: nat)
    requires k < BITS
    ensures Bit(ONES, k)
  {
    WordSize();
    BitLowMask(BITS, k);
  }

  lemma NonzeroBit(w: Word) returns (k: nat)
    requires w != 0
    ensures k < BITS && Bit(w, k)
  {
    WordSize();
    k := SomeBit(w, BITS);
  }

  lemma {:induction false} PowGrows(m: nat, n: nat)
    requires m <= n
    ensures Pow2(m) <= Pow2(n)
    decreases n
  {
    if m < n { PowGrows(m, n - 1); }
  }

  /** The word 2^n - 1. */
  function LowMask(n: nat): Word
    requires n <= BITS
  {
    WordSize();
    PowGrows(n, BITS);
    Pow2(n) - 1
  }

  // ---------------------------------------------------------------- first and last bit of a word

  /** The search of bitops_ffsl: `num` low bits of w are known to be 0 and the first set bit is among
      the next `range`. */
  ghost predicate Narrowed(w: Word, num: nat, word: Word, range: nat) {
    && word == Shr(w, num)
    && (forall j :: 0 <= j < num ==> !Bit(w, j))
    && (exists k :: 0 <= k < range && Bit(word, k))
  }

  lemma NoneBelow(word: Word, m: nat, j: nat)
    requires j < m <= BITS && And(word, LowMask(m)) == 0
    ensures !Bit(word, j)
  {
    BitAnd(word, LowMask(m), j);
    BitLowMask(m, j);
    BitZero(j);
  }

  lemma OneBelow(word: Word, m: nat) returns (k: nat)
    requires m <= BITS && And(word, LowMask(m)) != 0
    ensures k < m && Bit(word, k)
  {
    k := NonzeroBit(And(word, LowMask(m)));
    BitAnd(word, LowMask(m), k);
    BitLowMask(m, k);
  }

  lemma NarrowSkip(w: Word, num: nat, word: Word, m: nat)
    requires m <= 32 && Narrowed(w, num, word, 2 * m) && And(word, LowMask(m)) == 0
    ensures Narrowed(w, num + m, Shr(word, m), m)
  {
    forall j | 0 <= j < num + m ensures !Bit(w, j) {
      if j >= num {
        BitShr(w, num, j - num);
        NoneBelow(word, m, j - num);
      }
    }
    ShrSplit(w, num, m);
    var k :| 0 <= k < 2 * m && Bit(word, k);
    if k < m { NoneBelow(word, m, k); }
    BitShr(word, m, k - m);
  }

  lemma {:induction false} ShrSplit(w: nat, m: nat, n: nat)
    ensures Shr(w, m + n) == Shr(Shr(w, m), n)
    decreases m
  {
    if m > 0 { ShrSplit(w / 2, m - 1, n); }
  }

  /** One of the tests in bitops_ffsl: is there a set bit among the low m? */
  method HalveLow(w: Word, num: nat, word: Word, m: nat) returns (num': nat, word': Word)
    requires m <= 32 && Narrowed(w, num, word, 2 * m)
    ensures Narrowed(w, num', word', m)
  {
    num', word' := num, word;
    if And(word, LowMask(m)) == 0 {
      NarrowSkip(w, num, word, m);
      num', word' := num + m, Shr(word, m);
    } else {
      ghost var k := OneBelow(word, m);
    }
  }

  /** bitops_ffsl: the lowest set bit. */
  method Ffsl(w: Word) returns (num: nat)
    requires w != 0
    ensures num < BITS && Bit(w, num)
    ensures forall j :: 0 <= j < num ==> !Bit(w, j)
  {
    ghost var k := NonzeroBit(w);
    num := 0;
    var word := w;
    num, word := HalveLow(w, num, word, 32);
    num, word := HalveLow(w, num, word, 16);
    num, word := HalveLow(w, num, word, 8);
    num, word := HalveLow(w, num, word, 4);
    num, word := HalveLow(w, num, word, 2);
    num, word := HalveLow(w, num, word, 1);
    BitShr(w, num, 0);
    WordSize();
    if num >= BITS { BitBeyond(w, BITS, num); }
  }

  /** The search of bitops_flsl, from the top. */
  ghost predicate NarrowedHigh(w: Word, num: nat, word: Word, range: nat) {
    && num < BITS && word == Shl(w, BITS - 1 - num)
    && (forall j :: num < j < BITS ==> !Bit(w, j))
    && (exists k :: 0 <= k && BITS - range <= k < BITS && Bit(word, k))
  }

  lemma BitHighMask(n: nat, k: nat)
    requires n <= BITS && k < BITS
    ensures Bit(Shl(ONES, n), k) <==> k >= n
  {
    BitShl(ONES, n, k);
    if k >= n { BitOnes(k - n); }
  }

  lemma NoneAbove(word: Word, n: nat, j: nat)
    requires n <= j < BITS && And(word, Shl(ONES, n)) == 0
    ensures !Bit(word, j)
  {
    BitAnd(word, Shl(ONES, n), j);
    BitHighMask(n, j);
    BitZero(j);
  }

  lemma OneAbove(word: Word, n: nat) returns (k: nat)
    requires n <= BITS && And(word, Shl(ONES, n)) != 0
    ensures n <= k < BITS && Bit(word, k)
  {
    k := NonzeroBit(And(word, Shl(ONES, n)));
    BitAnd(word, Shl(ONES, n), k);
    BitHighMask(n, k);
  }

  lemma {:induction false} ShlSplit(w: Word, m: nat, n: nat)
    ensures Shl(w, m + n) == Shl(Shl(w, m), n)
    decreases n
  {
    if n > 0 { ShlSplit(w, m, n - 1); }
  }

  /** Bit j of w is bit j + s of w << s. */
  lemma HighClear(w: Word, num: nat, word: Word, m: nat, j: nat)
    requires num < BITS && word == Shl(w, BITS - 1 - num) && m <= 32 && And(word, Shl(ONES, BITS - m)) == 0
    requires num < j + m && j <= num
    ensures !Bit(w, j)
  {
    var s := BITS - 1 - num;
    BitShl(w, s, j + s);
    NoneAbove(word, BITS - m, j + s);
  }

  lemma NarrowHighSkip(w: Word, num: nat, word: Word, m: nat)
    requires 0 < m <= 32 && NarrowedHigh(w, num, word, 2 * m) && And(word, Shl(ONES, BITS - m)) == 0
    ensures m <= num && NarrowedHigh(w, num - m, Shl(word, m), m)
  {
    var k :| 0 <= k && BITS - 2 * m <= k < BITS && Bit(word, k);
    if k >= BITS - m { NoneAbove(word, BITS - m, k); }
    assert num >= m by { BitShl(w, BITS - 1 - num, k); }
    assert Bit(Shl(word, m), k + m) by { BitShl(word, m, k + m); }
    assert Shl(w, BITS - 1 - (num - m)) == Shl(word, m) by { ShlSplit(w, BITS - 1 - num, m); }
    forall j | num - m < j < BITS ensures !Bit(w, j) {
      if j <= num { HighClear(w, num, word, m, j); }
    }
  }

  method HalveHigh(w: Word, num: nat, word: Word, m: nat) returns (num': nat, word': Word)
    requires 0 < m <= 32 && NarrowedHigh(w, num, word, 2 * m)
    ensures NarrowedHigh(w, num', word', m)
  {
    num', word' := num, word;
    if And(word, Shl(ONES, BITS - m)) == 0 {
      NarrowHighSkip(w, num, word, m);
      num', word' := num - m, Shl(word, m);
    } else {
      ghost var k := OneAbove(word, BITS - m);
    }
  }

  /** bitops_flsl: the highest set bit. */
  method Flsl(w: Word) returns (num: nat)
    requires w != 0
    ensures num < BITS && Bit(w, num)
    ensures forall j :: num < j < BITS ==> !Bit(w, j)
  {
    ghost var k := NonzeroBit(w);
    num := BITS - 1;
    var word := w;
    num, word := HalveHigh(w, num, word, 32);
    num, word := HalveHigh(w, num, word, 16);
    num, word := HalveHigh(w, num, word, 8);
    num, word := HalveHigh(w, num, word, 4);
    num, word := HalveHigh(w, num, word, 2);
    num, word := HalveHigh(w, num, word, 1);
    BitShl(w, BITS - 1 - num, BITS - 1);
  }

  // ---------------------------------------------------------------- bitmaps

  /** The boolean at position i of a bitmap. */
  predicate BitAt(s: seq<Word>, i: nat)
    requires i < BITS * |s|
  {
    Bit(s[i / BITS], i % BITS)
  }

  /** r is the first position at or after offset whose bit is `val`, or size if there is none. */
  ghost predicate IsNext(s: seq<Word>, size: nat, offset: nat, val: bool, r: nat)
    requires size <= BITS * |s|
  {
    && offset <= r <= size
    && (forall i :: offset <= i < r ==> BitAt(s, i) != val)
    && (r < size ==> BitAt(s, r) == val)
  }

  /** tmp shows, of the word at `base`, the bits in [lo, hi) that equal val. */
  ghost predicate Shows(s: seq<Word>, base: nat, lo: nat, hi: nat, val: bool, tmp: Word)
    requires base % BITS == 0 && base < BITS * |s|
  {
    forall k :: 0 <= k < BITS ==> (Bit(tmp, k) <==> lo <= k < hi && Bit(s[base / BITS], k) == val)
  }

  /** None of the bits from offset up to `to` is val. */
  ghost predicate Without(s: seq<Word>, offset: nat, to: nat, val: bool)
    requires to <= BITS * |s|
  {
    forall i :: offset <= i < to ==> BitAt(s, i) != val
  }

  lemma WordEmpty(s: seq<Word>, base: nat, lo: nat, hi: nat, val: bool, offset: nat)
    requires base % BITS == 0 && base < BITS * |s| && lo <= hi <= BITS
    requires Shows(s, base, lo, hi, val, 0) && Without(s, offset, base + lo, val)
    ensures Without(s, offset, base + hi, val)
  {
    forall i | offset <= i < base + hi ensures BitAt(s, i) != val {
      if i >= base + lo {
        var k := i - base;
        assert i / BITS == base / BITS && i % BITS == k;
        BitZero(k);
      }
    }
  }

  lemma WordFirst(s: seq<Word>, size: nat, base: nat, lo: nat, hi: nat, val: bool, offset: nat, tmp: Word, n: nat)
    requires base % BITS == 0 && base < BITS * |s| && lo <= hi <= BITS && base + hi <= size <= BITS * |s|
    requires offset <= base + lo && Shows(s, base, lo, hi, val, tmp) && Without(s, offset, base + lo, val)
    requires n < BITS && Bit(tmp, n) && forall j :: 0 <= j < n ==> !Bit(tmp, j)
    ensures IsNext(s, size, offset, val, base + n)
  {
    forall i | offset <= i <= base + n ensures BitAt(s, i) == val <==> i == base + n {
      if i >= base + lo {
        var k := i - base;
        assert i / BITS == base / BITS && i % BITS == k;
      }
    }
  }

  // ---------------------------------------------------------------- masks on one word

  lemma ShowsFrom(s: seq<Word>, base: nat, lo: nat)
    requires base % BITS == 0 && base < BITS * |s| && lo <= BITS
    ensures Shows(s, base, lo, BITS, true, And(s[base / BITS], Shl(ONES, lo)))
  {
    var w := s[base / BITS];
    forall k | 0 <= k < BITS ensures Bit(And(w, Shl(ONES, lo)), k) <==> lo <= k && Bit(w, k) {
      BitAnd(w, Shl(ONES, lo), k);
      BitHighMask(lo, k);
    }
  }

  lemma BitShiftedOnes(n: nat, k: nat)
    requires n <= BITS && k < BITS
    ensures Bit(Shr(ONES, BITS - n), k) <==> k < n
  {
    BitShr(ONES, BITS - n, k);
    if k < n { BitOnes(BITS - n + k); } else { WordSize(); BitBeyond(ONES, BITS, BITS - n + k); }
  }

  lemma ShowsUpTo(s: seq<Word>, base: nat, lo: nat, hi: nat, tmp: Word)
    requires base % BITS == 0 && base < BITS * |s| && hi <= BITS && Shows(s, base, lo, BITS, true, tmp)
    ensures Shows(s, base, lo, hi, true, And(tmp, Shr(ONES, BITS - hi)))
  {
    var m := And(tmp, Shr(ONES, BITS - hi));
    forall k | 0 <= k < BITS ensures Bit(m, k) <==> lo <= k < hi && Bit(s[base / BITS], k) == true {
      BitAnd(tmp, Shr(ONES, BITS - hi), k);
      BitShiftedOnes(hi, k);
    }
  }

  /** The exits found_first and found_middle of find_next_bit. */
  method FirstInWord(ghost s: seq<Word>, ghost size: nat, base: nat, ghost lo: nat, ghost hi: nat, ghost val: bool,
                     ghost offset: nat, tmp: Word) returns (r: nat)
    requires base % BITS == 0 && base < BITS * |s| && lo <= hi <= BITS && base + hi <= size <= BITS * |s|
    requires offset <= base + lo && Shows(s, base, lo, hi, val, tmp) && Without(s, offset, base + lo, val)
    requires tmp != 0
    ensures IsNext(s, size, offset, val, r)
  {
    var n := Ffsl(tmp);
    WordFirst(s, size, base, lo, hi, val, offset, tmp, n);
    r := base + n;
  }

  /** The last, possibly partial word: the exit found_first. */
  method LastWord(ghost s: seq<Word>, base: nat, left: nat, ghost lo: nat, ghost offset: nat, tmp: Word)
    returns (r: nat)
    requires base % BITS == 0 && base < BITS * |s| && lo <= left <= BITS && base + left <= BITS * |s|
    requires offset <= base + lo && Shows(s, base, lo, BITS, true, tmp) && Without(s, offset, base + lo, true)
    ensures IsNext(s, base + left, offset, true, r)
  {
    ShowsUpTo(s, base, lo, left, tmp);
    var last := And(tmp, Shr(ONES, BITS - left));
    if last == 0 {
      WordEmpty(s, base, lo, left, true, offset);
      return base + left;
    }
    r := FirstInWord(s, base + left, base, lo, left, true, offset, last);
  }

  /** find_next_bit. */
  method FindNextBit(addr: array<Word>, size: nat, offset: nat) returns (r: nat)
    requires size <= BITS * addr.Length
    ensures if offset >= size then r == size else IsNext(addr[..], size, offset, true, r)
  {
    if offset >= size { return size; }
    ghost var s := addr[..];
    var p := offset / BITS;
    var result := offset - offset % BITS;
    var left: nat := size - result;
    var lo := offset % BITS;
    if lo > 0 {
      var tmp := And(addr[p], Shl(ONES, lo));
      ShowsFrom(s, result, lo);
      p := p + 1;
      if left < BITS {
        r := LastWord(s, result, left, lo, offset, tmp);
        return;
      }
      if tmp != 0 {
        r := FirstInWord(s, size, result, lo, BITS, true, offset, tmp);
        return;
      }
      WordEmpty(s, result, lo, BITS, true, offset);
      left := left - BITS;
      result := result + BITS;
    }
    while left >= BITS
      invariant 0 <= left && result % BITS == 0 && p == result / BITS && result + left == size && offset <= result
      invariant Without(s, offset, result, true)
    {
      var tmp := addr[p];
      p := p + 1;
      if tmp != 0 {
        r := FirstInWord(s, size, result, 0, BITS, true, offset, tmp);
        return;
      }
      WordEmpty(s, result, 0, BITS, true, offset);
      result := result + BITS;
      left := left - BITS;
    }
    if left == 0 { return result; }
    r := LastWord(s, result, left, 0, offset, addr[p]);
  }

  /** tmp is w with every bit outside [lo, hi) set. */
  ghost predicate SetOutside(w: Word, lo: nat, hi: nat, tmp: Word) {
    forall k :: 0 <= k < BITS ==> (Bit(tmp, k) <==> !(lo <= k < hi) || Bit(w, k))
  }

  lemma ShowsNot(s: seq<Word>, base: nat, lo: nat, hi: nat, tmp: Word)
    requires base % BITS == 0 && base < BITS * |s| && SetOutside(s[base / BITS], lo, hi, tmp)
    ensures Shows(s, base, lo, hi, false, Not(tmp))
  {
    var m := Not(tmp);
    forall k | 0 <= k < BITS ensures Bit(m, k) <==> lo <= k < hi && Bit(s[base / BITS], k) == false {
      BitNot(tmp, k);
    }
  }

  lemma SetBelow(w: Word, lo: nat)
    requires lo <= BITS
    ensures Or(w, Shr(ONES, BITS - lo)) <= ONES && SetOutside(w, lo, BITS, Or(w, Shr(ONES, BITS - lo)))
  {
    WordsFit(w, Shr(ONES, BITS - lo));
    var m := Or(w, Shr(ONES, BITS - lo));
    forall k | 0 <= k < BITS ensures Bit(m, k) <==> k < lo || Bit(w, k) {
      BitOr(w, Shr(ONES, BITS - lo), k);
      BitShiftedOnes(lo, k);
    }
  }

  lemma SetAbove(w: Word, lo: nat, hi: nat, tmp: Word)
    requires hi <= BITS && SetOutside(w, lo, BITS, tmp)
    ensures Or(tmp, Shl(ONES, hi)) <= ONES && SetOutside(w, lo, hi, Or(tmp, Shl(ONES, hi)))
  {
    WordsFit(tmp, Shl(ONES, hi));
    var m := Or(tmp, Shl(ONES, hi));
    forall k | 0 <= k < BITS ensures Bit(m, k) <==> !(lo <= k < hi) || Bit(w, k) {
      BitOr(tmp, Shl(ONES, hi), k);
      BitHighMask(hi, k);
    }
  }

  /** The last word of find_next_zero_bit; the bits below lo of tmp are already set. */
  method LastZeroWord(ghost s: seq<Word>, base: nat, left: nat, ghost lo: nat, ghost offset: nat, tmp: Word)
    returns (r: nat)
    requires base % BITS == 0 && base < BITS * |s| && lo <= left <= BITS && base + left <= BITS * |s|
    requires offset <= base + lo && Without(s, offset, base + lo, false) && SetOutside(s[base / BITS], lo, BITS, tmp)
    ensures IsNext(s, base + left, offset, false, r)
  {
    SetAbove(s[base / BITS], lo, left, tmp);
    var last := Or(tmp, Shl(ONES, left));
    ShowsNot(s, base, lo, left, last);
    if last == ONES {
      WordEmpty(s, base, lo, left, false, offset);
      return base + left;
    }
    r := FirstInWord(s, base + left, base, lo, left, false, offset, Not(last));
  }

  /** find_next_zero_bit; ffz(tmp) is bitops_ffsl(~tmp). */
  method FindNextZeroBit(addr: array<Word>, size: nat, offset: nat) returns (r: nat)
    requires size <= BITS * addr.Length
    ensures if offset >= size then r == size else IsNext(addr[..], size, offset, false, r)
  {
    if offset >= size { return size; }
    ghost var s := addr[..];
    var p := offset / BITS;
    var result := offset - offset % BITS;
    var left: nat := size - result;
    var lo := offset % BITS;
    if lo > 0 {
      SetBelow(addr[p], lo);
      var tmp := Or(addr[p], Shr(ONES, BITS - lo));
      ShowsNot(s, result, lo, BITS, tmp);
      p := p + 1;
      if left < BITS {
        r := LastZeroWord(s, result, left, lo, offset, tmp);
        return;
      }
      if Not(tmp) != 0 {
        r := FirstInWord(s, size, result, lo, BITS, false, offset, Not(tmp));
        return;
      }
      WordEmpty(s, result, lo, BITS, false, offset);
      left := left - BITS;
      result := result + BITS;
    }
    while left >= BITS
      invariant 0 <= left && result % BITS == 0 && p == result / BITS && result + left == size && offset <= result
      invariant Without(s, offset, result, false)
    {
      var tmp := addr[p];
      ShowsNot(s, result, 0, BITS, tmp);
      p := p + 1;
      if Not(tmp) != 0 {
        r := FirstInWord(s, size, result, 0, BITS, false, offset, Not(tmp));
        return;
      }
      WordEmpty(s, result, 0, BITS, false, offset);
      result := result + BITS;
      left := left - BITS;
    }
    if left == 0 { return result; }
    r := LastZeroWord(s, result, left, 0, offset, addr[p]);
  }

  /** find_last_bit: the last set bit, or size if there is none. */
  method FindLastBit(addr: array<Word>, size: nat) returns (r: nat)
    requires size <= BITS * addr.Length
    ensures r < size ==> BitAt(addr[..], r) && forall i :: r < i < size ==> !BitAt(addr[..], i)
    ensures r >= size ==> r == size && forall i :: 0 <= i < size ==> !BitAt(addr[..], i)
  {
    var words := size / BITS;
    ghost var s := addr[..];
    ghost var top: nat := size;
    if size % BITS != 0 {
      var tmp := And(addr[words], Shr(ONES, BITS - size % BITS));
      ShowsFrom(s, words * BITS, 0);
      ShowsAll(s, words);
      ShowsUpTo(s, words * BITS, 0, size % BITS, addr[words]);
      if tmp != 0 {
        r := LastInWord(s, size, words, size % BITS, tmp);
        return;
      }
      top := words * BITS;
      WordEmpty(s, top, 0, size % BITS, true, top);
    }
    while words > 0
      invariant top == words * BITS && top <= size && (forall i :: top <= i < size ==> !BitAt(s, i))
    {
      words := words - 1;
      var tmp := addr[words];
      ShowsAll(s, words);
      if tmp != 0 {
        r := LastInWord(s, size, words, BITS, tmp);
        return;
      }
      top := words * BITS;
      WordEmpty(s, top, 0, BITS, true, top);
    }
    r := size;
  }

  lemma ShowsAll(s: seq<Word>, words: nat)
    requires words < |s|
    ensures Shows(s, words * BITS, 0, BITS, true, s[words])
  {
  }

  /** The exit found of find_last_bit. */
  method LastInWord(ghost s: seq<Word>, ghost size: nat, words: nat, ghost hi: nat, tmp: Word) returns (r: nat)
    requires words < |s| && hi <= BITS && words * BITS + hi <= size <= BITS * |s| && tmp != 0
    requires Shows(s, words * BITS, 0, hi, true, tmp)
    requires forall i :: words * BITS + hi <= i < size ==> !BitAt(s, i)
    ensures r < size && BitAt(s, r) && forall i :: r < i < size ==> !BitAt(s, i)
  {
    var n := Flsl(tmp);
    r := words * BITS + n;
    forall i | r <= i < size ensures BitAt(s, i) <==> i == r {
      if i < words * BITS + hi {
        var k := i - words * BITS;
        assert i / BITS == words && i % BITS == k;
      }
    }
  }
}
