/** Bitmaps as arrays of words (bitmap.c, bitmap.h): range updates, the allocator of aligned zero
    areas, and the predicates, all against the sequence of booleans that the words stand for. */
module Bitmap {
  import opened Bitops

  // ---------------------------------------------------------------- range updates

  /** b is a with exactly the bits of [lo, hi) changed to val. */
  ghost predicate RangeSet(a: seq<Word>, b: seq<Word>, lo: nat, hi: nat, val: bool) {
    |b| == |a| && forall i :: 0 <= i < BITS * |a| ==> BitAt(b, i) == if lo <= i < hi then val else BitAt(a, i)
  }

  lemma RangeSetThen(a: seq<Word>, b: seq<Word>, c: seq<Word>, lo: nat, mid: nat, hi: nat, val: bool)
    requires RangeSet(a, b, lo, mid, val) && RangeSet(b, c, mid, hi, val) && lo <= mid <= hi
    ensures RangeSet(a, c, lo, hi, val)
  {
  }

  /** The mask covers the bits of [lo, hi). */
  ghost predicate Covers(mask: Word, lo: nat, hi: nat) {
    forall k :: 0 <= k < BITS ==> (Bit(mask, k) <==> lo <= k < hi)
  }

  /** What `*p |= mask` and `*p &= ~mask` store. */
  function Masked(w: Word, mask: Word, val: bool): Word {
    WordsFit(w, mask);
    if val then Or(w, mask) else And(w, Not(mask))
  }

  lemma MaskWord(a: seq<Word>, p: nat, mask: Word, lo: nat, hi: nat, val: bool)
    requires p < |a| && hi <= BITS && Covers(mask, lo, hi)
    ensures RangeSet(a, a[p := Masked(a[p], mask, val)], p * BITS + lo, p * BITS + hi, val)
  {
    var b := a[p := Masked(a[p], mask, val)];
    forall i | 0 <= i < BITS * |a|
      ensures BitAt(b, i) == if p * BITS + lo <= i < p * BITS + hi then val else BitAt(a, i)
    {
      if i / BITS == p {
        var k := i % BITS;
        BitOr(a[p], mask, k);
        BitAnd(a[p], Not(mask), k);
        BitNot(mask, k);
      }
    }
  }

  /** BITMAP_LAST_WORD_MASK. */
  function LastWordMask(nbits: nat): Word { if nbits % BITS != 0 then LowMask(nbits % BITS) else ONES }

  lemma FirstMask(lo: nat)
    requires lo <= BITS
    ensures Covers(Shl(ONES, lo), lo, BITS)
  {
    var m := Shl(ONES, lo);
    forall k | 0 <= k < BITS ensures Bit(m, k) <==> lo <= k { BitHighMask(lo, k); }
  }

  lemma LastMask(mask: Word, lo: nat, size: nat)
    requires Covers(mask, lo, BITS) && size % BITS != 0
    ensures Covers(And(mask, LastWordMask(size)), lo, size % BITS)
  {
    var m := And(mask, LastWordMask(size));
    forall k | 0 <= k < BITS ensures Bit(m, k) <==> lo <= k < size % BITS {
      BitAnd(mask, LastWordMask(size), k);
      BitLowMask(size % BITS, k);
    }
  }

  lemma AllOnes()
    ensures Covers(ONES, 0, BITS)
  {
    forall k | 0 <= k < BITS ensures Bit(ONES, k) { BitOnes(k); }
  }

  /** One whole-word turn of the loop: the bits from lo up. */
  method UpdateWord(a: array<Word>, p: nat, mask: Word, ghost lo: nat, ghost hi: nat, val: bool,
                    ghost before: seq<Word>, ghost start: nat)
    requires p < a.Length && lo <= hi <= BITS && Covers(mask, lo, hi)
    requires start <= p * BITS + lo && RangeSet(before, a[..], start, p * BITS + lo, val)
    modifies a
    ensures RangeSet(before, a[..], start, p * BITS + hi, val)
  {
    ghost var mid := a[..];
    MaskWord(mid, p, mask, lo, hi, val);
    a[p] := Masked(a[p], mask, val);
    assert a[..] == mid[p := Masked(mid[p], mask, val)];
    RangeSetThen(before, mid, a[..], start, p * BITS + lo, p * BITS + hi, val);
  }

  /** bitmap_set (val) and bitmap_clear (not val), which differ only in what they store. */
  method UpdateRange(a: array<Word>, start: nat, nr: nat, val: bool)
    requires start + nr <= BITS * a.Length
    modifies a
    ensures RangeSet(old(a[..]), a[..], start, start + nr, val)
  {
    var p := start / BITS;
    var size := start + nr;
    var left := nr;
    var bits := BITS - start % BITS;
    var mask: Word := Shl(ONES, start % BITS);
    FirstMask(start % BITS);
    ghost var lo := start % BITS;
    while left - bits >= 0
      invariant 0 <= left && 0 <= lo < BITS && 0 <= p && p * BITS + lo + left == size && start <= p * BITS + lo
      invariant bits == BITS - lo && Covers(mask, lo, BITS)
      invariant RangeSet(old(a[..]), a[..], start, p * BITS + lo, val)
      decreases left
    {
      UpdateWord(a, p, mask, lo, BITS, val, old(a[..]), start);
      left := left - bits;
      bits := BITS;
      mask := ONES;
      lo := 0;
      AllOnes();
      p := p + 1;
    }
    if left != 0 {
      RestOf(p, lo + left);
      LastMask(mask, lo, size);
      mask := And(mask, LastWordMask(size));
      UpdateWord(a, p, mask, lo, lo + left, val, old(a[..]), start);
    }
  }

  lemma RestOf(p: nat, k: nat)
    requires k < BITS
    ensures (p * BITS + k) % BITS == k && (p * BITS + k) / BITS == p
  {
  }

  /** Setting a clear range and clearing it again restores every bit. */
  lemma ClearUndoesSet(a: seq<Word>, b: seq<Word>, c: seq<Word>, lo: nat, hi: nat)
    requires hi <= BITS * |a| && (forall i :: lo <= i < hi ==> !BitAt(a, i))
    requires RangeSet(a, b, lo, hi, true) && RangeSet(b, c, lo, hi, false)
    ensures c == a
  {
    forall p | 0 <= p < |a| ensures c[p] == a[p] {
      forall k | 0 <= k < BITS ensures Bit(c[p], k) <==> Bit(a[p], k) {
        var i := p * BITS + k;
        assert i / BITS == p && i % BITS == k;
        assert BitAt(c, i) == BitAt(a, i);
      }
      SameBits(c[p], a[p]);
    }
  }

  /** A word is determined by its bits. */
  lemma SameBits(v: Word, w: Word)
    requires forall k :: 0 <= k < BITS ==> (Bit(v, k) <==> Bit(w, k))
    ensures v == w
  {
    WordSize();
    SameDigits(v, w, BITS);
  }

  lemma {:induction false} SameDigits(v: nat, w: nat, n: nat)
    requires v < Pow2(n) && w < Pow2(n)
    requires forall k :: 0 <= k < n ==> (Bit(v, k) <==> Bit(w, k))
    ensures v == w
    decreases n
  {
    if n > 0 {
      assert Bit(v, 0) <==> Bit(w, 0);
      forall k | 0 <= k < n - 1 ensures Bit(v / 2, k) <==> Bit(w / 2, k) {
        assert Bit(v, k + 1) <==> Bit(w, k + 1);
      }
      SameDigits(v / 2, w / 2, n - 1);
    }
  }

  // ---------------------------------------------------------------- aligned zero areas

  /** ALIGN_MASK(x, mask). */
  function AlignUp(x: nat, mask: Word): nat
    requires x + mask <= ONES
  {
    And(x + mask, Not(mask))
  }

  /** i is a multiple of 2^n. */
  predicate Aligned(i: nat, n: nat) { n == 0 || (i % 2 == 0 && Aligned(i / 2, n - 1)) }

  lemma {:induction false} AlignedMultiple(i: nat, n: nat) returns (t: nat)
    requires Aligned(i, n)
    ensures i == Pow2(n) * t
    decreases n
  {
    if n == 0 { t := i; } else { t := AlignedMultiple(i / 2, n - 1); }
  }

  lemma {:induction false} MultipleAligned(t: nat, n: nat)
    ensures Aligned(Pow2(n) * t, n)
    decreases n
  {
    if n > 0 {
      assert Pow2(n) * t == 2 * (Pow2(n - 1) * t);
      MultipleAligned(t, n - 1);
    }
  }

  /** x without its low n bits. */
  function RoundDown(x: nat, n: nat): (r: nat)
    ensures r <= x < r + Pow2(n) && Aligned(r, n)
    decreases n
  {
    if n == 0 then x else 2 * RoundDown(x / 2, n - 1)
  }

  lemma {:induction false} ClearLow(x: nat, n: nat, m: nat)
    requires n <= m && x < Pow2(m)
    ensures Pow2(n) <= Pow2(m) && And(x, Pow2(m) - Pow2(n)) == RoundDown(x, n)
    decreases n
  {
    PowGrows(n, m);
    if n == 0 {
      AndOnes(x, m);
    } else {
      ClearLow(x / 2, n - 1, m - 1);
      var h := Pow2(m - 1) - Pow2(n - 1);
      assert Pow2(m) - Pow2(n) == 2 * h;
      AndEven(x, h);
    }
  }

  lemma AndEven(x: nat, h: nat)
    ensures And(x, 2 * h) == 2 * And(x / 2, h)
  {
  }

  lemma {:induction false} AndOnes(x: nat, m: nat)
    requires x < Pow2(m)
    ensures And(x, Pow2(m) - 1) == x
    decreases m
  {
    if m > 0 && x > 0 {
      assert (Pow2(m) - 1) / 2 == Pow2(m - 1) - 1;
      AndOnes(x / 2, m - 1);
    }
  }

  lemma {:induction false} AlignedGap(i: nat, j: nat, n: nat)
    requires Aligned(i, n) && Aligned(j, n) && i < j
    ensures i + Pow2(n) <= j
    decreases n
  {
    if n > 0 { AlignedGap(i / 2, j / 2, n - 1); }
  }

  /** With a mask one below a power of two, ALIGN_MASK gives the least multiple that is not below x. */
  lemma AlignUpIsLeast(x: nat, n: nat, j: nat)
    requires n <= BITS && x + LowMask(n) <= ONES
    ensures var r := AlignUp(x, LowMask(n));
            x <= r && Aligned(r, n) && (Aligned(j, n) && x <= j ==> r <= j)
  {
    var r := AlignUp(x, LowMask(n));
    AlignUpIs(x, n);
    if Aligned(j, n) && x <= j < r { AlignedGap(j, r, n); }
  }

  lemma AlignUpIs(x: nat, n: nat)
    requires n <= BITS && x + LowMask(n) <= ONES
    ensures AlignUp(x, LowMask(n)) == RoundDown(x + LowMask(n), n)
  {
    WordSize();
    ClearLow(x + LowMask(n), n, BITS);
  }

  /** nr zero bits at an aligned position that fit in the bitmap. */
  ghost predicate Area(s: seq<Word>, size: nat, nr: nat, n: nat, i: nat)
    requires size <= BITS * |s|
  {
    Aligned(i, n) && i + nr <= size && forall k :: i <= k < i + nr ==> !BitAt(s, k)
  }

  ghost predicate NoAreaBetween(s: seq<Word>, size: nat, nr: nat, n: nat, lo: nat, hi: nat)
    requires size <= BITS * |s|
  {
    forall i :: lo <= i < hi ==> !Area(s, size, nr, n, i)
  }

  /** No area starts before the aligned successor of the next zero bit. */
  lemma SkipToZero(s: seq<Word>, size: nat, nr: nat, n: nat, from: nat, z: nat)
    requires size <= BITS * |s| && nr >= 1 && n <= BITS && size + LowMask(n) <= ONES
    requires if from >= size then z == size else IsNext(s, size, from, false, z)
    ensures NoAreaBetween(s, size, nr, n, from, AlignUp(z, LowMask(n)))
  {
    var r := AlignUp(z, LowMask(n));
    forall i | from <= i < r ensures !Area(s, size, nr, n, i) {
      AlignUpIsLeast(z, n, i);
      if i < z { assert BitAt(s, i); }
    }
  }

  /** What find_next_zero_bit returns. */
  ghost predicate NextZero(s: seq<Word>, size: nat, from: nat, z: nat)
    requires size <= BITS * |s|
  {
    if from >= size then z == size else IsNext(s, size, from, false, z)
  }

  /** bitmap_find_next_zero_area with align_mask = 2^n - 1. A result above size says there is no area.
      For nr == 0 the source does not return the first aligned position but aligns the next zero bit. */
  method FindNextZeroArea(a: array<Word>, size: nat, start: nat, nr: nat, n: nat) returns (r: nat)
    requires size <= BITS * a.Length && n <= BITS && size + LowMask(n) <= ONES
    ensures nr >= 1 && r <= size ==>
              start <= r && Area(a[..], size, nr, n, r) && NoAreaBetween(a[..], size, nr, n, start, r)
    ensures nr >= 1 && r > size ==> forall i :: start <= i ==> !Area(a[..], size, nr, n, i)
    ensures nr == 0 ==> exists z: nat :: z <= size && NextZero(a[..], size, start, z) && r == AlignUp(z, LowMask(n))
  {
    ghost var s := a[..];
    var from := start;
    while true
      invariant start <= from && (nr >= 1 ==> NoAreaBetween(s, size, nr, n, start, from)) && (nr == 0 ==> from == start)
      decreases if from <= size then size - from + 1 else 0
    {
      var z := FindNextZeroBit(a, size, from);
      if nr >= 1 { SkipToZero(s, size, nr, n, from, z); }
      AlignUpIsLeast(z, n, 0);
      var index := AlignUp(z, LowMask(n));
      var end := index + nr;
      if end > size { return end; }
      var i := FindNextBit(a, end, index);
      if i < end {
        assert BitAt(s, i);
        from := i + 1;
      } else {
        return index;
      }
    }
  }

  // ---------------------------------------------------------------- predicates and word-wise operations

  /** The test `w & mask` on one word. */
  lemma MaskedZero(w: Word, hi: nat, mask: Word)
    requires hi <= BITS && Covers(mask, 0, hi)
    ensures And(w, mask) == 0 <==> forall k :: 0 <= k < hi ==> !Bit(w, k)
  {
    if And(w, mask) == 0 {
      forall k | 0 <= k < hi ensures !Bit(w, k) {
        BitAnd(w, mask, k);
        BitZero(k);
      }
    } else {
      var k := NonzeroBit(And(w, mask));
      BitAnd(w, mask, k);
    }
  }

  lemma LastMaskCovers(bits: nat)
    ensures Covers(LastWordMask(bits), 0, if bits % BITS == 0 then BITS else bits % BITS)
  {
    var m := LastWordMask(bits);
    if bits % BITS == 0 {
      AllOnes();
    } else {
      forall k | 0 <= k < BITS ensures Bit(m, k) <==> k < bits % BITS { BitLowMask(bits % BITS, k); }
    }
  }

  /** The word that each predicate of bitmap.c tests: bitmap_empty, bitmap_full, bitmap_intersects, bitmap_equal. */
  datatype Test = NotEmpty | NotFull | Intersects | NotEqual

  function TestWord(t: Test, v: Word, w: Word): Word {
    WordsFit(v, w);
    match t
    case NotEmpty => v
    case NotFull => Not(v)
    case Intersects => And(v, w)
    case NotEqual => Xor(v, w)
  }

  predicate TestBit(t: Test, x: bool, y: bool) {
    match t
    case NotEmpty => x
    case NotFull => !x
    case Intersects => x && y
    case NotEqual => x != y
  }

  lemma TestWordBit(t: Test, v: Word, w: Word, k: nat)
    requires k < BITS
    ensures Bit(TestWord(t, v, w), k) <==> TestBit(t, Bit(v, k), Bit(w, k))
  {
    BitNot(v, k);
    BitAnd(v, w, k);
    BitXor(v, w, k);
  }

  /** Some of the first n positions passes the test. */
  ghost predicate Found(t: Test, s: seq<Word>, u: seq<Word>, n: nat)
    requires n <= BITS * |s| && n <= BITS * |u|
  {
    exists i :: 0 <= i < n && TestBit(t, BitAt(s, i), BitAt(u, i))
  }

  /** Some of the low `hi` bits of a word passes it. */
  ghost predicate FoundLow(t: Test, v: Word, w: Word, hi: nat) {
    exists k :: 0 <= k < hi && TestBit(t, Bit(v, k), Bit(w, k))
  }

  lemma FoundInWord(t: Test, v: Word, w: Word, hi: nat, mask: Word)
    requires hi <= BITS && Covers(mask, 0, hi)
    ensures And(TestWord(t, v, w), mask) != 0 <==> FoundLow(t, v, w, hi)
  {
    var x := TestWord(t, v, w);
    MaskedZero(x, hi, mask);
    if And(x, mask) != 0 {
      var k :| 0 <= k < hi && Bit(x, k);
      TestWordBit(t, v, w, k);
    } else {
      forall k | 0 <= k < hi ensures !TestBit(t, Bit(v, k), Bit(w, k)) { TestWordBit(t, v, w, k); }
    }
  }

  lemma FoundInFullWord(t: Test, v: Word, w: Word)
    ensures TestWord(t, v, w) != 0 <==> FoundLow(t, v, w, BITS)
  {
    var x := TestWord(t, v, w);
    if x != 0 {
      var k := NonzeroBit(x);
      TestWordBit(t, v, w, k);
    } else if k :| 0 <= k < BITS && TestBit(t, Bit(v, k), Bit(w, k)) {
      TestWordBit(t, v, w, k);
      BitZero(k);
    }
  }

  lemma FoundFurther(t: Test, s: seq<Word>, u: seq<Word>, k: nat, hi: nat)
    requires k < |s| && k < |u| && hi <= BITS
    ensures Found(t, s, u, k * BITS + hi) <==> Found(t, s, u, k * BITS) || FoundLow(t, s[k], u[k], hi)
  {
    if FoundLow(t, s[k], u[k], hi) {
      var j :| 0 <= j < hi && TestBit(t, Bit(s[k], j), Bit(u[k], j));
      var p := k * BITS + j;
      assert p / BITS == k && p % BITS == j;
      assert TestBit(t, BitAt(s, p), BitAt(u, p));
    }
    if i :| k * BITS <= i < k * BITS + hi && TestBit(t, BitAt(s, i), BitAt(u, i)) {
      assert i / BITS == k && i % BITS == i - k * BITS;
    }
  }

  /** slow_bitmap_empty, slow_bitmap_full, slow_bitmap_intersects and slow_bitmap_equal: whole words first, then the
      used bits of the last one. The unused bits never matter. */
  method SlowTest(t: Test, a: array<Word>, b: array<Word>, bits: nat) returns (r: bool)
    requires bits <= BITS * a.Length && bits <= BITS * b.Length
    ensures r <==> Found(t, a[..], b[..], bits)
  {
    ghost var s, u := a[..], b[..];
    var k := 0;
    while k < bits / BITS
      invariant k <= bits / BITS && !Found(t, s, u, k * BITS)
    {
      FoundFurther(t, s, u, k, BITS);
      FoundInFullWord(t, a[k], b[k]);
      if TestWord(t, a[k], b[k]) != 0 {
        FoundMore(t, s, u, k * BITS + BITS, bits);
        return true;
      }
      k := k + 1;
    }
    r := false;
    if bits % BITS != 0 {
      LastMaskCovers(bits);
      FoundFurther(t, s, u, k, bits % BITS);
      FoundInWord(t, a[k], b[k], bits % BITS, LastWordMask(bits));
      r := And(TestWord(t, a[k], b[k]), LastWordMask(bits)) != 0;
    }
  }

  lemma FoundMore(t: Test, s: seq<Word>, u: seq<Word>, m: nat, n: nat)
    requires m <= n <= BITS * |s| && n <= BITS * |u| && Found(t, s, u, m)
    ensures Found(t, s, u, n)
  {
  }

  /** The small-size paths of bitmap.h agree with it exactly when there is a bit to look at or the word is zero. */
  lemma FastTestAgrees(t: Test, v: Word, w: Word, nbits: nat)
    requires nbits <= BITS
    ensures (And(TestWord(t, v, w), LastWordMask(nbits)) != 0 <==> Found(t, [v], [w], nbits)) <==>
            (nbits >= 1 || TestWord(t, v, w) == 0)
  {
    LastMaskCovers(nbits);
    FoundFurther(t, [v], [w], 0, nbits);
    FoundInWord(t, v, w, if nbits % BITS == 0 then BITS else nbits % BITS, LastWordMask(nbits));
    FoundInFullWord(t, v, w);
    assert [v][0] == v && [w][0] == w;
  }

  // ---------------------------------------------------------------- operations on whole bitmaps

  /** BITS_TO_LONGS. */
  function Longs(bits: nat): nat { (bits + BITS - 1) / BITS }

  datatype Op = OpAnd | OpOr | OpXor | OpAndNot

  function OpWord(op: Op, v: Word, w: Word): Word {
    WordsFit(v, w);
    match op
    case OpAnd => And(v, w)
    case OpOr => Or(v, w)
    case OpXor => Xor(v, w)
    case OpAndNot => And(v, Not(w))
  }

  predicate OpBit(op: Op, x: bool, y: bool) {
    match op
    case OpAnd => x && y
    case OpOr => x || y
    case OpXor => x != y
    case OpAndNot => x && !y
  }

  lemma OpWordBit(op: Op, v: Word, w: Word, k: nat)
    requires k < BITS
    ensures Bit(OpWord(op, v, w), k) <==> OpBit(op, Bit(v, k), Bit(w, k))
  {
    BitAnd(v, w, k);
    BitOr(v, w, k);
    BitXor(v, w, k);
    BitNot(w, k);
    BitAnd(v, Not(w), k);
  }

  /** Every bit of d is the operation on those of s and u, as far as their words go. */
  ghost predicate Combined(op: Op, s: seq<Word>, u: seq<Word>, d: seq<Word>, n: nat)
    requires n <= BITS * |s| && n <= BITS * |u| && n <= BITS * |d|
  {
    forall i :: 0 <= i < n ==> (BitAt(d, i) <==> OpBit(op, BitAt(s, i), BitAt(u, i)))
  }

  /** Some bit of [lo, hi) is set. */
  ghost predicate SomeSet(s: seq<Word>, lo: nat, hi: nat)
    requires hi <= BITS * |s|
  {
    exists i :: lo <= i < hi && BitAt(s, i)
  }

  lemma WordsSet(s: seq<Word>, nr: nat)
    requires nr <= |s|
    ensures SomeSet(s, 0, nr * BITS) <==> exists j :: 0 <= j < nr && s[j] != 0
  {
    if j :| 0 <= j < nr && s[j] != 0 {
      var k := NonzeroBit(s[j]);
      var i := j * BITS + k;
      assert i / BITS == j && i % BITS == k;
      assert BitAt(s, i);
    } else if i :| 0 <= i < nr * BITS && BitAt(s, i) {
      BitZero(i % BITS);
    }
  }

  /** slow_bitmap_and, _or, _xor and _andnot, which differ in the operation only; dst may be an operand. The result,
      which _and and _andnot return, looks at whole words. */
  method SlowCombine(op: Op, dst: array<Word>, a: array<Word>, b: array<Word>, bits: nat) returns (r: bool)
    requires bits <= BITS * a.Length && bits <= BITS * b.Length && bits <= BITS * dst.Length
    modifies dst
    ensures Combined(op, old(a[..]), old(b[..]), dst[..], Longs(bits) * BITS)
    ensures r <==> SomeSet(dst[..], 0, Longs(bits) * BITS)
    ensures forall k :: Longs(bits) <= k < dst.Length ==> dst[k] == old(dst[k])
  {
    ghost var s, u := a[..], b[..];
    var nr := Longs(bits);
    r := false;
    var k := 0;
    while k < nr
      invariant k <= nr <= dst.Length
      invariant forall j :: 0 <= j < k ==> dst[j] == OpWord(op, s[j], u[j])
      invariant forall j :: k <= j < dst.Length ==> dst[j] == old(dst[j])
      invariant forall j :: k <= j < nr ==> a[j] == s[j] && b[j] == u[j]
      invariant r <==> exists j :: 0 <= j < k && dst[j] != 0
    {
      dst[k] := OpWord(op, a[k], b[k]);
      r := r || dst[k] != 0;
      k := k + 1;
    }
    WordsSet(dst[..], nr);
    CombinedWords(op, s, u, dst[..], nr);
  }

  lemma CombinedWords(op: Op, s: seq<Word>, u: seq<Word>, d: seq<Word>, nr: nat)
    requires nr <= |s| && nr <= |u| && nr <= |d| && forall j :: 0 <= j < nr ==> d[j] == OpWord(op, s[j], u[j])
    ensures Combined(op, s, u, d, nr * BITS)
  {
    forall i | 0 <= i < nr * BITS ensures BitAt(d, i) <==> OpBit(op, BitAt(s, i), BitAt(u, i)) {
      OpWordBit(op, s[i / BITS], u[i / BITS], i % BITS);
    }
  }

  /** slow_bitmap_complement, which clears the unused bits of the last word. */
  method SlowComplement(dst: array<Word>, a: array<Word>, bits: nat)
    requires bits <= BITS * a.Length && bits <= BITS * dst.Length
    modifies dst
    ensures forall i :: 0 <= i < bits ==> BitAt(dst[..], i) == !BitAt(old(a[..]), i)
    ensures CleanTail(dst[..], bits)
    ensures forall k :: Longs(bits) <= k < dst.Length ==> dst[k] == old(dst[k])
  {
    ghost var s := a[..];
    var k := 0;
    while k < bits / BITS
      invariant k <= bits / BITS
      invariant forall j :: 0 <= j < k ==> dst[j] == Not(s[j])
      invariant forall j :: k <= j < dst.Length ==> dst[j] == old(dst[j])
      invariant forall j :: k <= j < Longs(bits) ==> a[j] == s[j]
    {
      dst[k] := Not(a[k]);
      k := k + 1;
    }
    if bits % BITS != 0 {
      dst[k] := And(Not(a[k]), LastWordMask(bits));
    }
    ComplementWords(s, dst[..], bits);
  }

  lemma ComplementWords(s: seq<Word>, d: seq<Word>, bits: nat)
    requires bits <= BITS * |s| && bits <= BITS * |d|
    requires forall j :: 0 <= j < bits / BITS ==> d[j] == Not(s[j])
    requires bits % BITS != 0 ==> d[bits / BITS] == And(Not(s[bits / BITS]), LastWordMask(bits))
    ensures (forall i :: 0 <= i < bits ==> BitAt(d, i) == !BitAt(s, i)) && CleanTail(d, bits)
  {
    LastMaskCovers(bits);
    forall i | 0 <= i < Longs(bits) * BITS ensures BitAt(d, i) <==> i < bits && !BitAt(s, i) {
      BitNot(s[i / BITS], i % BITS);
      if i / BITS == bits / BITS { BitAnd(Not(s[i / BITS]), LastWordMask(bits), i % BITS); }
    }
  }

  /** The unused bits of the last word are zero. */
  ghost predicate CleanTail(s: seq<Word>, bits: nat)
    requires bits <= BITS * |s|
  {
    !SomeSet(s, bits, Longs(bits) * BITS)
  }

  /** The operation sets some bit of [lo, hi). */
  ghost predicate SomeCombined(op: Op, s: seq<Word>, u: seq<Word>, lo: nat, hi: nat)
    requires hi <= BITS * |s| && hi <= BITS * |u|
  {
    exists i :: lo <= i < hi && OpBit(op, BitAt(s, i), BitAt(u, i))
  }

  /** What _and and _andnot return is right for the bits asked for exactly when these give a set bit, or the unused
      bits of the operands give none. */
  lemma ResultExact(op: Op, s: seq<Word>, u: seq<Word>, d: seq<Word>, bits: nat)
    requires bits <= BITS * |s| && bits <= BITS * |u| && bits <= BITS * |d|
    requires Combined(op, s, u, d, Longs(bits) * BITS)
    ensures (SomeSet(d, 0, Longs(bits) * BITS) <==> SomeSet(d, 0, bits)) <==>
            (SomeCombined(op, s, u, 0, bits) || !SomeCombined(op, s, u, bits, Longs(bits) * BITS))
  {
    var n := Longs(bits) * BITS;
    assert SomeSet(d, 0, bits) <==> SomeCombined(op, s, u, 0, bits) by { CombinedSome(op, s, u, d, 0, bits, n); }
    assert SomeSet(d, bits, n) <==> SomeCombined(op, s, u, bits, n) by { CombinedSome(op, s, u, d, bits, n, n); }
    assert SomeSet(d, 0, n) <==> SomeSet(d, 0, bits) || SomeSet(d, bits, n);
  }

  lemma CombinedSome(op: Op, s: seq<Word>, u: seq<Word>, d: seq<Word>, lo: nat, hi: nat, n: nat)
    requires hi <= n <= BITS * |s| && n <= BITS * |u| && n <= BITS * |d| && Combined(op, s, u, d, n)
    ensures SomeSet(d, lo, hi) <==> SomeCombined(op, s, u, lo, hi)
  {
    if i :| lo <= i < hi && BitAt(d, i) { assert OpBit(op, BitAt(s, i), BitAt(u, i)); }
    if i :| lo <= i < hi && OpBit(op, BitAt(s, i), BitAt(u, i)) { assert BitAt(d, i); }
  }

  /** Operands without unused bits give a result without unused bits, and then what _and and _andnot return is right;
      for these two the first operand is enough. */
  lemma CleanTailKept(op: Op, s: seq<Word>, u: seq<Word>, d: seq<Word>, bits: nat)
    requires bits <= BITS * |s| && bits <= BITS * |u| && bits <= BITS * |d|
    requires Combined(op, s, u, d, Longs(bits) * BITS) && CleanTail(s, bits)
    requires op == OpOr || op == OpXor ==> CleanTail(u, bits)
    ensures CleanTail(d, bits) && (SomeSet(d, 0, Longs(bits) * BITS) <==> SomeSet(d, 0, bits))
  {
    forall i | bits <= i < Longs(bits) * BITS ensures !BitAt(d, i) {
      assert !BitAt(s, i) && (BitAt(d, i) <==> OpBit(op, BitAt(s, i), BitAt(u, i)));
    }
  }

  /** With unused bits set, _and returns true for two bitmaps of one clear bit. */
  method TailBitMisleads() returns (r: bool, d: array<Word>)
    ensures r && d.Length == 1 && !SomeSet(d[..], 0, 1)
  {
    var a := new Word[1](_ => 2);
    d := new Word[1](_ => 0);
    r := SlowCombine(OpAnd, d, a, a, 1);
    assert BitAt(a[..], 1) && !BitAt(a[..], 0);
  }
}
