/**
 The size-class arithmetic of the memory pool: rounding a request up to its class,
 numbering the classes, and sizing the batches that move between the caches.
 `size_t` is 64 bits wide; every operation that can wrap is written modulo 2^64.
 */
module SizeClass {

  const MAXBYTES: nat := 262144
  const NFREELIST: nat := 208
  const NPAGES: nat := 129
  const PAGESIZE: nat := 8192
  const WORD: nat := 0x1_0000_0000_0000_0000

  function Pow2(k: nat): (p: nat)
    ensures p >= 1
  {
    if k == 0 then 1 else 2 * Pow2(k - 1)
  }

  function BothOdd(a: nat, b: nat): nat {
    if a % 2 == 1 && b % 2 == 1 then 1 else 0
  }

  /** Bitwise conjunction of two unsigned words. */
  function BitAnd(a: nat, b: nat): nat
    decreases a
  {
    if a == 0 || b == 0 then 0 else BothOdd(a, b) + 2 * BitAnd(a / 2, b / 2)
  }

  /** Bitwise complement of a 64-bit word. */
  function Not64(a: nat): nat
    requires a < WORD
  {
    WORD - 1 - a
  }

  /** `_round_up`: the mask form, on wrapping 64-bit words. */
  function AlignMask(bytes: nat, align: nat): nat
    requires bytes < WORD && 1 <= align <= WORD
  {
    BitAnd((bytes + align - 1) % WORD, Not64(align - 1))
  }

  function AlignUp(bytes: nat, align: nat): nat
    requires align > 0
  {
    (bytes + align - 1) / align * align
  }

  ghost predicate LeastMultiple(m: nat, bytes: nat, align: nat)
    requires align > 0
  {
    && m % align == 0
    && bytes <= m
    && forall j: nat :: j % align == 0 && bytes <= j ==> m <= j
  }

  lemma {:induction false} DivModPow2(x: nat, k: nat)
    requires k > 0
    ensures 2 * ((x / 2) % Pow2(k - 1)) + x % 2 == x % Pow2(k)
  {
    var q, m := x / 2, Pow2(k - 1);
    var d := q / m;
    assert q == d * m + q % m;
    var r := 2 * (q % m) + x % 2;
    assert x == d * (2 * m) + r by { assert x == 2 * q + x % 2; assert 2 * (d * m) == d * (2 * m); }
    assert 0 <= r < 2 * m;
    ModUnique(x, 2 * m, d, r);
  }

  lemma Multiple(a: nat, b: nat, m: nat)
    requires a < b
    ensures a * m + m <= b * m
  {
    assert b * m == a * m + (b - a) * m;
    assert (b - a) * m == m + (b - a - 1) * m;
  }

  lemma ModUnique(x: nat, m: nat, d: nat, r: nat)
    requires m > 0 && x == d * m + r && r < m
    ensures x % m == r && x / m == d
  {
    var d' := x / m;
    if d' < d {
      Multiple(d', d, m);
    } else if d < d' {
      Multiple(d, d', m);
    }
  }

  /** Clearing the low `k` bits of an `n`-bit word subtracts its remainder. */
  lemma {:induction false} ClearLowBits(x: nat, n: nat, k: nat)
    requires k <= n && x < Pow2(n)
    ensures Pow2(k) <= Pow2(n)
    ensures BitAnd(x, Pow2(n) - Pow2(k)) == x - x % Pow2(k)
    decreases n
  {
    if k == 0 {
      AllOnes(x, n);
    } else {
      HalfBelow(x, n);
      ClearLowBits(x / 2, n - 1, k - 1);
      ClearShift(x, n, k, (x / 2) % Pow2(k - 1));
    }
  }

  lemma HalfBelow(x: nat, n: nat)
    requires 0 < n && x < Pow2(n)
    ensures x / 2 < Pow2(n - 1)
  {
  }

  lemma Halves(m: nat, q: nat, b: nat)
    requires m == 2 * q + b && b < 2
    ensures m / 2 == q && m % 2 == b
  {
  }

  lemma {:induction false} AllOnes(x: nat, n: nat)
    requires x < Pow2(n)
    ensures BitAnd(x, Pow2(n) - 1) == x
    decreases n
  {
    if n > 0 {
      AllOnes(x / 2, n - 1);
      ClearNone(x, Pow2(n) - 1, Pow2(n - 1) - 1);
    }
  }

  lemma ClearNone(x: nat, m: nat, q: nat)
    requires m == 2 * q + 1 && BitAnd(x / 2, q) == x / 2
    ensures BitAnd(x, m) == x
  {
    Halves(m, q, 1);
    BitAndHalf(x, m);
  }

  lemma ClearStep(x: nat, m: nat, q: nat, r: nat)
    requires m == 2 * q && BitAnd(x / 2, q) == x / 2 - r && r <= x / 2
    ensures BitAnd(x, m) == x - (2 * r + x % 2)
  {
    Halves(m, q, 0);
    BitAndHalf(x, m);
  }

  lemma ClearShift(x: nat, n: nat, k: nat, r: nat)
    requires 0 < k <= n && Pow2(k - 1) <= Pow2(n - 1) && r == (x / 2) % Pow2(k - 1)
    requires BitAnd(x / 2, Pow2(n - 1) - Pow2(k - 1)) == x / 2 - r
    ensures Pow2(k) <= Pow2(n)
    ensures BitAnd(x, Pow2(n) - Pow2(k)) == x - x % Pow2(k)
  {
    DivModPow2(x, k);
    ClearStep(x, Pow2(n) - Pow2(k), Pow2(n - 1) - Pow2(k - 1), r);
  }

  /** The same on 64-bit words. */
  lemma ClearWord(x: nat, k: nat)
    requires k <= 64 && x < WORD
    ensures Pow2(k) <= WORD && BitAnd(x, WORD - Pow2(k)) == x - x % Pow2(k)
  {
    Pow2Word();
    ClearLowBits(x, 64, k);
  }

  lemma BitAndHalf(a: nat, b: nat)
    ensures BitAnd(a, b) == BothOdd(a, b) + 2 * BitAnd(a / 2, b / 2)
  {
  }

  lemma {:induction false} Pow2Strict(a: nat, b: nat)
    requires a <= b
    ensures Pow2(a) <= Pow2(b) && (Pow2(a) == Pow2(b) ==> a == b)
    decreases b
  {
    if a < b {
      Pow2Strict(a, b - 1);
    }
  }

  lemma Pow2Word()
    ensures Pow2(64) == WORD && Pow2(32) == 0x1_0000_0000
  {
    assert Pow2(8) == 256;
    assert Pow2(16) == 65536;
    assert Pow2(24) == 0x100_0000;
    assert Pow2(32) == 0x1_0000_0000;
    assert Pow2(40) == 0x100_0000_0000;
    assert Pow2(48) == 0x1_0000_0000_0000;
    assert Pow2(56) == 0x100_0000_0000_0000;
  }

  lemma AlignUpIsLeast(bytes: nat, align: nat)
    requires align > 0
    ensures LeastMultiple(AlignUp(bytes, align), bytes, align)
    ensures AlignUp(bytes, align) < bytes + align
  {
    var q := (bytes + align - 1) / align;
    DivMod(bytes + align - 1, align);
    ModUnique(q * align, align, q, 0);
    forall j: nat | j % align == 0 && bytes <= j
      ensures q * align <= j
    {
      NoMultipleBetween(bytes, align, q, j);
    }
  }

  lemma NoMultipleBetween(bytes: nat, align: nat, q: nat, j: nat)
    requires align > 0 && q * align < bytes + align && j % align == 0 && bytes <= j
    ensures q * align <= j
  {
    DivMod(j, align);
    if j / align < q {
      Multiple(j / align, q, align);
    }
  }

  /** Below the wrap the mask form and the arithmetic form agree. */
  lemma MaskIsAlignUp(bytes: nat, k: nat)
    requires k <= 64 && bytes + Pow2(k) - 1 < WORD
    ensures Pow2(k) <= WORD && AlignMask(bytes, Pow2(k)) == AlignUp(bytes, Pow2(k))
  {
    var align := Pow2(k);
    var x := bytes + align - 1;
    ClearWord(x, k);
    ModUnique(x, WORD, 0, x);
    DivMod(x, align);
  }

  /** Past the end of the word the sum wraps to less than the alignment. */
  lemma MaskWraps(bytes: nat, k: nat)
    requires k <= 64 && bytes < WORD && bytes + Pow2(k) > WORD
    ensures Pow2(k) <= WORD && AlignMask(bytes, Pow2(k)) == 0
  {
    var align := Pow2(k);
    var x := bytes + align - 1;
    ClearWord(0, k);
    ModUnique(x, WORD, 1, x - WORD);
    ClearWord(x - WORD, k);
    ModUnique(x - WORD, align, 0, x - WORD);
  }

  lemma DivMod(x: nat, m: nat)
    requires m > 0
    ensures x == x / m * m + x % m
  {
  }

  /**
   For every byte count and every power-of-two alignment the mask form is a multiple of the
   alignment, and it is the least multiple not below the count exactly when that multiple
   still fits in the word. Otherwise the addition wraps and the result is zero.
   */
  lemma MaskFormExact(bytes: nat, k: nat)
    requires k < 64 && bytes < WORD
    ensures Pow2(k) <= WORD
    ensures LeastMultiple(AlignMask(bytes, Pow2(k)), bytes, Pow2(k)) <==> bytes + Pow2(k) <= WORD
    ensures bytes + Pow2(k) > WORD ==> AlignMask(bytes, Pow2(k)) == 0
  {
    if bytes + Pow2(k) <= WORD {
      MaskIsAlignUp(bytes, k);
      AlignUpIsLeast(bytes, Pow2(k));
    } else {
      MaskWraps(bytes, k);
    }
  }

  /** `round_up`; the source asserts that the size is at most MAXBYTES. */
  function RoundUp(size: nat): nat
    requires size <= MAXBYTES
  {
    if size <= 128 then AlignMask(size, 8)
    else if size <= 1024 then AlignMask(size, 16)
    else if size <= 8192 then AlignMask(size, 128)
    else if size <= 65536 then AlignMask(size, 1024)
    else AlignMask(size, 8192)
  }

  /** The step between neighbouring classes around `size`. */
  function Align(size: nat): (align: nat)
    ensures align > 0
  {
    if size <= 128 then 8
    else if size <= 1024 then 16
    else if size <= 8192 then 128
    else if size <= 65536 then 1024
    else 8192
  }

  lemma RoundUpIs(size: nat)
    requires size <= MAXBYTES
    ensures RoundUp(size) == AlignUp(size, Align(size))
  {
    assert Pow2(3) == 8 && Pow2(4) == 16 && Pow2(7) == 128;
    assert Pow2(10) == 1024 && Pow2(13) == 8192;
    var k := if size <= 128 then 3 else if size <= 1024 then 4
             else if size <= 8192 then 7 else if size <= 65536 then 10 else 13;
    MaskIsAlignUp(size, k);
  }

  /** `_index`; the trailing decrement wraps. */
  function GroupIndex(bytes: nat, align: nat): nat
    requires align > 0
  {
    ((bytes + align - 1) / align + WORD - 1) % WORD
  }

  /** `index`; the source asserts that the size is at most MAXBYTES. */
  function Index(bytes: nat): nat
    requires bytes <= MAXBYTES
  {
    if bytes <= 128 then GroupIndex(bytes, 8)
    else if bytes <= 1024 then GroupIndex(bytes - 128, 16) + 16
    else if bytes <= 8192 then GroupIndex(bytes - 1024, 128) + 72
    else if bytes <= 65536 then GroupIndex(bytes - 8192, 1024) + 128
    else GroupIndex(bytes - 65536, 8192) + 184
  }

  /** The object size served by class `c`: the table that `round_up` and `index` leave implicit. */
  function ClassSize(c: nat): nat
    requires c < NFREELIST
  {
    if c < 16 then (c + 1) * 8
    else if c < 72 then 128 + (c - 15) * 16
    else if c < 128 then 1024 + (c - 71) * 128
    else if c < 184 then 8192 + (c - 127) * 1024
    else 65536 + (c - 183) * 8192
  }

  /** A request indexes the table inside its bounds exactly when it is not empty. */
  lemma IndexInBounds(size: nat)
    requires size <= MAXBYTES
    ensures Index(size) < NFREELIST <==> size >= 1
  {
  }

  /** Rounding is the class table read at the request's index. */
  lemma RoundUpIsClassSize(size: nat)
    requires 1 <= size <= MAXBYTES
    ensures Index(size) < NFREELIST && RoundUp(size) == ClassSize(Index(size))
    ensures size <= RoundUp(size) <= MAXBYTES && RoundUp(size) < size + Align(size)
    ensures Index(RoundUp(size)) == Index(size)
  {
    RoundUpIs(size);
    AlignUpIsLeast(size, Align(size));
    AlignedIsClass(size);
    ClassTable(Index(size));
  }

  lemma AlignedIsClass(size: nat)
    requires 1 <= size <= MAXBYTES
    ensures Index(size) < NFREELIST && AlignUp(size, Align(size)) == ClassSize(Index(size))
  {
    var align := Align(size);
    var base, skip := if size <= 128 then 0 else if size <= 1024 then 128
                      else if size <= 8192 then 1024 else if size <= 65536 then 8192 else 65536,
                      if size <= 128 then 0 else 8;
    assert base == skip * align;
    InGroup(size - base, skip, align);
  }

  /** `skip` whole steps of `align` lie below the group that holds the request. */
  lemma InGroup(bytes: nat, skip: nat, align: nat)
    requires 1 <= bytes <= MAXBYTES && 1 <= align
    ensures GroupIndex(bytes, align) <= MAXBYTES
    ensures GroupIndex(bytes, align) * align < bytes <= GroupIndex(bytes, align) * align + align
    ensures AlignUp(skip * align + bytes, align) == (skip + GroupIndex(bytes, align) + 1) * align
  {
    var q, r := (bytes - 1) / align, (bytes - 1) % align;
    assert bytes - 1 == q * align + r by { DivMod(bytes - 1, align); }
    assert q <= bytes by { MulLe(1, align, q); }
    assert (bytes + align - 1) / align == q + 1 by {
      Distribute(q, 1, align);
      ModUnique(bytes + align - 1, align, q + 1, r);
    }
    assert GroupIndex(bytes, align) == q by { ModUnique(q + WORD, WORD, 1, q); }
    var x := skip * align + bytes + align - 1;
    assert x / align == skip + q + 1 by {
      Distribute(skip + q, 1, align);
      Distribute(skip, q, align);
      ModUnique(x, align, skip + q + 1, r);
    }
  }

  lemma Distribute(a: nat, b: nat, m: nat)
    ensures (a + b) * m == a * m + b * m
  {
  }

  /** Above 128 bytes rounding wastes less than one ninth of the rounded size. */
  lemma WasteBound(size: nat)
    requires 128 < size <= MAXBYTES
    ensures 9 * (RoundUp(size) - size) < RoundUp(size)
  {
    RoundUpIsClassSize(size);
  }

  /** Every class is reached: the table inverts `index`. */
  lemma ClassTable(c: nat)
    requires c < NFREELIST
    ensures 8 <= ClassSize(c) <= MAXBYTES && ClassSize(c) % 8 == 0
    ensures Index(ClassSize(c)) == c
  {
    if c < 72 {
      FineClasses(c);
    } else {
      CoarseClasses(c);
    }
  }

  lemma FineClasses(c: nat)
    requires c < 72
    ensures 8 <= ClassSize(c) <= 1024 && ClassSize(c) % 8 == 0 && Index(ClassSize(c)) == c
  {
  }

  lemma CoarseClasses(c: nat)
    requires 72 <= c < NFREELIST
    ensures 1024 < ClassSize(c) <= MAXBYTES && ClassSize(c) % 8 == 0 && Index(ClassSize(c)) == c
  {
  }

  /** Two requests share a free list exactly when they round to the same size. */
  lemma SameClass(a: nat, b: nat)
    requires 1 <= a <= MAXBYTES && 1 <= b <= MAXBYTES
    ensures Index(a) == Index(b) <==> RoundUp(a) == RoundUp(b)
  {
    RoundUpIsClassSize(a);
    RoundUpIsClassSize(b);
  }

  /** `num_move_size`: the slow-start ceiling. */
  function NumMoveSize(size: nat): (num: nat)
    requires size > 0
    ensures 2 <= num <= 512
  {
    var num := MAXBYTES / size;
    if num < 2 then 2 else if num > 512 then 512 else num
  }

  /** `num_move_page`: pages fetched for one span of objects of this size. */
  function NumMovePage(size: nat): nat
    requires size > 0
  {
    var npage := NumMoveSize(size) * size / PAGESIZE;
    if npage == 0 then 1 else npage
  }

  /** A span holds at least one object, and a page request stays far below the refill size. */
  lemma NumMovePageBounds(size: nat)
    requires 1 <= size <= MAXBYTES
    ensures 1 <= NumMovePage(size) <= 64
    ensures size <= NumMovePage(size) * PAGESIZE
  {
    var num := MAXBYTES / size;
    assert num * size <= MAXBYTES;
    var m := NumMoveSize(size);
    if num < 2 {
      assert m * size <= 2 * MAXBYTES;
      assert size > 8192;
    } else {
      assert m <= num;
      MulLe(m, num, size);
      MulLe(2, m, size);
    }
  }

  /** `num_move_size` is the most objects, from 2 to 512, that 256 KiB hold; 2 when not even two fit. */
  lemma NumMoveSizeExactly(size: nat)
    requires size > 0
    ensures var num := NumMoveSize(size);
            && 2 <= num <= 512
            && (num > 2 ==> num * size <= 262144)
            && (num < 512 ==> 262144 < (num + 1) * size)
  {
    DivMod(MAXBYTES, size);
    var q, num := MAXBYTES / size, NumMoveSize(size);
    if num > 2 {
      MulLe(num, q, size);
    }
    if num < 512 {
      Distribute(q, 1, size);
      MulLe(q + 1, num + 1, size);
    }
  }

  /** `num_move_page` is the whole pages that one such batch fills, and at least one. */
  lemma NumMovePageExactly(size: nat)
    requires size > 0
    ensures var p, bytes := NumMovePage(size), NumMoveSize(size) * size;
            p >= 1 && bytes < (p + 1) * 8192 && (p > 1 ==> p * 8192 <= bytes)
  {
    DivMod(NumMoveSize(size) * size, PAGESIZE);
  }

  /** `round_up` gives the least multiple, not below the size, of the alignment of its range. */
  lemma RoundUpExactly(size: nat)
    requires size <= 262144
    ensures LeastMultiple(RoundUp(size), size,
              if size <= 128 then 8 else if size <= 1024 then 16 else if size <= 8192 then 128
              else if size <= 65536 then 1024 else 8192)
  {
    RoundUpIs(size);
    AlignUpIsLeast(size, Align(size));
  }

  lemma MulLe(a: nat, b: nat, m: nat)
    requires a <= b
    ensures a * m <= b * m
  {
    if a < b {
      Multiple(a, b, m);
    }
  }
}
