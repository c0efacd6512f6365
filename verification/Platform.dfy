/** Division with remainder on naturals, by repeated subtraction, so that proofs elsewhere never meet
    `/` and `%` themselves. */
module DivMod {

  function Quot(x: nat, d: nat): nat
    requires d > 0
  {
    if x < d then 0 else 1 + Quot(x - d, d)
  }

  function Rem(x: nat, d: nat): (r: nat)
    requires d > 0
    ensures r < d
  {
    if x < d then x else Rem(x - d, d)
  }

  lemma {:induction false} QuotRem(x: nat, d: nat)
    requires d > 0
    ensures x == Quot(x, d) * d + Rem(x, d)
  {
    if x >= d {
      QuotRem(x - d, d);
    }
  }

  lemma MulMonotone(a: nat, b: nat, d: nat)
    requires a <= b
    ensures a * d <= b * d
  {
  }

  /** Quotient and remainder are determined by their defining equation. */
  lemma Unique(x: nat, d: nat, q: nat, r: nat)
    requires d > 0 && r < d && x == q * d + r
    ensures Quot(x, d) == q && Rem(x, d) == r
  {
    var q' := Quot(x, d);
    QuotRem(x, d);
    if q > q' {
      MulMonotone(q' + 1, q, d);
    }
    if q < q' {
      MulMonotone(q + 1, q', d);
    }
  }

  /** The quotient reaches q exactly when q whole divisors fit. */
  lemma QuotAtLeast(x: nat, d: nat, q: nat)
    requires d > 0
    ensures Quot(x, d) >= q <==> q * d <= x
  {
    QuotRem(x, d);
    if Quot(x, d) >= q {
      MulMonotone(q, Quot(x, d), d);
    } else {
      MulMonotone(Quot(x, d) + 1, q, d);
    }
  }

  lemma Distribute(h: nat, l: nat, a: nat, b: nat)
    ensures (h * b + l) * a == h * (a * b) + l * a
    ensures (h + l) * a == h * a + l * a
  {
  }

  /** The remainder by a product splits into a low and a high part. */
  lemma RemSplits(x: nat, a: nat, b: nat)
    requires a > 0 && b > 0 && a * b > 0
    ensures Rem(x, a * b) == Rem(Quot(x, a), b) * a + Rem(x, a)
  {
    var q, r := Quot(x, a), Rem(x, a);
    QuotRem(x, a);
    var h, l := Quot(q, b), Rem(q, b);
    QuotRem(q, b);
    RemSplitsFrom(x, a, b, q, r, h, l);
  }

  lemma RemSplitsFrom(x: nat, a: nat, b: nat, q: nat, r: nat, h: nat, l: nat)
    requires a > 0 && b > 0 && a * b > 0
    requires x == q * a + r && r < a && q == h * b + l && l < b
    ensures Rem(x, a * b) == l * a + r
  {
    MulMonotone(l, b - 1, a);
    assert (b - 1) * a + a == a * b;
    Distribute(h, l, a, b);
    Unique(x, a * b, h, l * a + r);
  }
}

/** Page arithmetic of detail/platform.hpp: the page shift, rounding, pages of a byte range. */
module Platform {
  import opened DivMod

  function Pow2(n: nat): (r: nat)
    ensures r >= 1
  {
    if n == 0 then 1 else 2 * Pow2(n - 1)
  }

  /** log2 of the page size. It has no value here: every result holds for every page size from two bytes to
      one mebibyte. */
  type ShiftBits = n: nat | 1 <= n <= 20 witness 12

  const PAGE_SHIFT: ShiftBits

  const PAGE_SIZE: nat := Pow2(PAGE_SHIFT)

  /** One past the largest value of a 64-bit word. */
  const WORD: nat := 0x1_0000_0000_0000_0000

  lemma {:induction false} Pow2Adds(a: nat, b: nat)
    ensures Pow2(a + b) == Pow2(a) * Pow2(b)
  {
    if b != 0 {
      Pow2Adds(a, b - 1);
      assert Pow2(a + b) == 2 * Pow2(a + (b - 1));
    }
  }

  lemma {:induction false} Pow2Monotone(a: nat, b: nat)
    requires a <= b
    ensures Pow2(a) <= Pow2(b)
  {
    if a < b {
      Pow2Monotone(a, b - 1);
    }
  }

  lemma PageSizeBound()
    ensures PAGE_SIZE <= 0x10_0000
  {
    Pow2Monotone(PAGE_SHIFT, 20);
    Pow2Adds(10, 10);
  }

  /** Counts the right shifts that bring the page size down to one: the shift is its exact
      logarithm when the page size is a power of two, and rounds it down otherwise. */
  method PageShift(pageSize: nat) returns (sh: nat)
    requires pageSize > 0
    ensures Pow2(sh) <= pageSize < Pow2(sh + 1)
    ensures forall k: nat :: pageSize == Pow2(k) ==> sh == k
  {
    sh := 0;
    while Quot(pageSize, Pow2(sh)) > 1
      invariant Pow2(sh) <= pageSize
      decreases pageSize - Pow2(sh)
    {
      QuotAtLeast(pageSize, Pow2(sh), 2);
      sh := sh + 1;
    }
    QuotAtLeast(pageSize, Pow2(sh), 2);
    forall k: nat | pageSize == Pow2(k) ensures sh == k {
      ShiftIsLog(k, sh);
    }
  }

  lemma ShiftIsLog(k: nat, sh: nat)
    requires Pow2(sh) <= Pow2(k) < Pow2(sh + 1)
    ensures sh == k
  {
    if sh < k {
      Pow2Monotone(sh + 1, k);
    } else if sh > k {
      Pow2Monotone(k + 1, sh);
    }
  }

  /** An address with its in-page part cleared: shifted right and back left by the page shift. */
  function PageBase(addr: nat): nat {
    QuotRem(addr, PAGE_SIZE);
    addr - Rem(addr, PAGE_SIZE)
  }

  lemma PageBaseBelow(addr: nat)
    ensures addr < PageBase(addr) + PAGE_SIZE && Rem(PageBase(addr), PAGE_SIZE) == 0
  {
    QuotRem(addr, PAGE_SIZE);
    Unique(PageBase(addr), PAGE_SIZE, Quot(addr, PAGE_SIZE), 0);
  }

  /** Rounds up to a multiple of the page size, wrapping at 64 bits as `size_t` does. */
  function AlignUp(v: nat): nat
    requires v < WORD
  {
    PageBase(Rem(v + PAGE_SIZE - 1, WORD))
  }

  lemma WrapOnce(x: nat)
    requires x < 2 * WORD
    ensures Rem(x, WORD) == if x < WORD then x else x - WORD
  {
    Unique(x, WORD, if x < WORD then 0 else 1, if x < WORD then x else x - WORD);
  }

  /** Without overflow the rounding is the least page multiple at or above the value;
      with it (a value in the last page of the 64-bit range) the result is zero. */
  lemma AlignUpRounds(v: nat)
    requires v < WORD && PAGE_SIZE <= WORD
    ensures Rem(AlignUp(v), PAGE_SIZE) == 0
    ensures AlignUp(v) < WORD
    ensures v + PAGE_SIZE - 1 < WORD ==> v <= AlignUp(v) < v + PAGE_SIZE
    ensures v + PAGE_SIZE - 1 >= WORD ==> AlignUp(v) == 0
  {
    var x := v + PAGE_SIZE - 1;
    WrapOnce(x);
    PageBaseBelow(Rem(x, WORD));
    if x >= WORD {
      Unique(x - WORD, PAGE_SIZE, 0, x - WORD);
    }
  }

  /** The page a byte address belongs to. */
  function PageOf(addr: nat): nat {
    Quot(addr, PAGE_SIZE)
  }

  /** The addresses of a page are the PAGE_SIZE bytes from its base. */
  lemma PageSpan(addr: nat, a: nat)
    requires PageBase(addr) <= a < PageBase(addr) + PAGE_SIZE
    ensures PageOf(a) == PageOf(addr)
  {
    QuotRem(addr, PAGE_SIZE);
    Unique(a, PAGE_SIZE, PageOf(addr), a - PageBase(addr));
  }

  /** First page of a byte range and one past its last page. */
  function PageBegin(base: nat): nat {
    Quot(base, PAGE_SIZE)
  }

  function PageEnd(base: nat, size: nat): nat {
    Quot(base + size + PAGE_SIZE - 1, PAGE_SIZE)
  }

  /** A page of the range, rounded outwards to whole pages. */
  predicate PageWithin(page: nat, base: nat, size: nat) {
    PageBegin(base) <= page < PageEnd(base, size)
  }

  /** Page `pg` shares at least one byte with [base, base + size). */
  predicate Intersects(pg: nat, base: nat, size: nat) {
    exists a :: base <= a < base + size && PageOf(a) == pg
  }

  /** The half-open page interval is exactly the set of pages the byte range touches. */
  lemma RangePagesExact(base: nat, size: nat, pg: nat)
    requires size > 0
    ensures PageWithin(pg, base, size) <==> Intersects(pg, base, size)
  {
    var low := pg * PAGE_SIZE;
    assert (pg + 1) * PAGE_SIZE == low + PAGE_SIZE;
    QuotAtLeast(base, PAGE_SIZE, pg + 1);
    QuotAtLeast(base + size + PAGE_SIZE - 1, PAGE_SIZE, pg + 1);
    if PageWithin(pg, base, size) {
      var a := if base <= low then low else base;
      Unique(a, PAGE_SIZE, pg, a - low);
      assert PageOf(a) == pg;
    }
    if Intersects(pg, base, size) {
      var a :| base <= a < base + size && PageOf(a) == pg;
      QuotRem(a, PAGE_SIZE);
    }
  }

  /** The end of the interval as computed, in 64-bit arithmetic. */
  function WordPageEnd(base: nat, size: nat): nat {
    Quot(Rem(base + size + PAGE_SIZE - 1, WORD), PAGE_SIZE)
  }

  /** Rounding up wraps to zero for a range that ends in the last page of the 64-bit range. */
  lemma WordPageEndWraps(base: nat, size: nat)
    requires base + size <= WORD
    ensures WordPageEnd(base, size) == if base + size + PAGE_SIZE <= WORD then PageEnd(base, size) else 0
  {
    var x := base + size + PAGE_SIZE - 1;
    PageSizeBound();
    WrapOnce(x);
    if x >= WORD {
      Unique(x - WORD, PAGE_SIZE, 0, x - WORD);
    }
  }

  /** So the computed interval is the set of pages the range touches exactly when the range ends a page below
      2^64; otherwise it is empty. */
  lemma WordPagesExactIff(base: nat, size: nat)
    requires size > 0 && base + size <= WORD
    ensures (forall pg: nat {:trigger Intersects(pg, base, size)} ::
               PageBegin(base) <= pg < WordPageEnd(base, size) <==> Intersects(pg, base, size))
       <==> base + size + PAGE_SIZE <= WORD
  {
    WordPageEndWraps(base, size);
    forall pg: nat ensures PageWithin(pg, base, size) <==> Intersects(pg, base, size) {
      RangePagesExact(base, size, pg);
    }
    assert Intersects(PageOf(base), base, size);
  }

  /** It does happen: a byte at the start of the last page of the 64-bit range is in no page of its interval. */
  lemma LastPageGetsNone(base: nat)
    requires base + PAGE_SIZE == WORD
    ensures WordPageEnd(base, 1) == 0 && Intersects(PageOf(base), base, 1)
  {
    PageSizeBound();
    WordPageEndWraps(base, 1);
  }

  /** Every byte of a range lies in a page of its page interval. */
  lemma BytePageInRange(base: nat, size: nat, a: nat)
    requires base <= a < base + size
    ensures PageWithin(PageOf(a), base, size)
  {
    assert Intersects(PageOf(a), base, size);
    RangePagesExact(base, size, PageOf(a));
  }
}
