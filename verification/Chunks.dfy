/** Chunks of the backing file, and the sizes growth gives them. */
module Chunks {
  import opened DivMod
  import opened Platform

  const MIN_SEGMENT_SIZE: nat := 0x10_0000
  const DEFAULT_SEGMENT_SIZE: nat := 0x100_0000
  const GROW_MULTIPLIER: nat := 2
  const MAX_SUB_SEGMENTS: nat := 64

  /** User addresses are 48 bits wide. */
  const ADDRESS_SPACE: nat := 0x1_0000_0000_0000

  const HALF_WORD: nat := 0x8000_0000_0000_0000

  datatype Chunk = Chunk(off: nat, size: nat)

  /** get_size_unlocked: the sum over the segment list. */
  function TotalSize(cs: seq<Chunk>): nat {
    if cs == [] then 0 else TotalSize(cs[..|cs| - 1]) + cs[|cs| - 1].size
  }

  /** Each chunk starts where the previous one ends, from offset 0, and none is empty. */
  ghost predicate Tiles(cs: seq<Chunk>) {
    forall i :: 0 <= i < |cs| ==> cs[i].size > 0 && cs[i].off == TotalSize(cs[..i])
  }

  predicate Inside(c: Chunk, off: nat) {
    c.off <= off < c.off + c.size
  }

  lemma TilesAppend(cs: seq<Chunk>, c: Chunk)
    requires Tiles(cs) && c.size > 0 && c.off == TotalSize(cs)
    ensures Tiles(cs + [c]) && TotalSize(cs + [c]) == TotalSize(cs) + c.size
  {
    var ds := cs + [c];
    forall i | 0 <= i < |ds| ensures ds[i].size > 0 && ds[i].off == TotalSize(ds[..i]) {
      assert ds[..i] == if i < |cs| then cs[..i] else cs;
    }
    assert ds[..|ds| - 1] == cs;
  }

  lemma TilesPrefix(cs: seq<Chunk>, n: nat)
    requires Tiles(cs) && n <= |cs|
    ensures Tiles(cs[..n])
  {
    forall i | 0 <= i < n ensures cs[..n][i].off == TotalSize(cs[..n][..i]) {
      assert cs[..n][..i] == cs[..i];
    }
  }

  lemma {:induction false} TotalMonotone(cs: seq<Chunk>, i: nat, j: nat)
    requires i <= j <= |cs|
    ensures TotalSize(cs[..i]) <= TotalSize(cs[..j])
    ensures i < j ==> TotalSize(cs[..i]) + cs[i].size <= TotalSize(cs[..j])
  {
    if i < j {
      assert cs[..j][..j - 1] == cs[..j - 1];
      if i < j - 1 {
        TotalMonotone(cs, i, j - 1);
      }
    }
  }

  /** No gap and no overlap: every offset below the total lies in exactly one chunk. */
  lemma {:induction false} TilesCover(cs: seq<Chunk>, off: nat) returns (i: nat)
    requires Tiles(cs) && off < TotalSize(cs)
    ensures i < |cs| && Inside(cs[i], off)
    ensures forall j :: 0 <= j < |cs| && Inside(cs[j], off) ==> j == i
  {
    var n := |cs| - 1;
    if off >= TotalSize(cs[..n]) {
      i := n;
    } else {
      TilesPrefix(cs, n);
      i := TilesCover(cs[..n], off);
    }
    forall j | 0 <= j < |cs| && Inside(cs[j], off) ensures j == i {
      InsideUnique(cs, i, j, off);
    }
  }

  lemma InsideUnique(cs: seq<Chunk>, i: nat, j: nat, off: nat)
    requires Tiles(cs) && i < |cs| && j < |cs| && Inside(cs[i], off) && Inside(cs[j], off)
    ensures i == j
  {
    if i < j {
      TotalMonotone(cs, i, j);
    } else if j < i {
      TotalMonotone(cs, j, i);
    }
  }

  lemma InsideBelowTotal(cs: seq<Chunk>, i: nat, off: nat)
    requires Tiles(cs) && i < |cs| && Inside(cs[i], off)
    ensures off < TotalSize(cs)
  {
    TotalMonotone(cs, i, |cs|);
    assert cs[..|cs|] == cs;
  }

  // ---- sizes ----

  /** Who asks for growth: a caller needing `min` bytes, or the background worker. */
  datatype Request = Foreground(min: nat) | Background

  function Max(a: nat, b: nat): nat {
    if a >= b then a else b
  }

  /** Enough bytes are free: a caller looks at all segments, the worker at half of the last. */
  predicate Declines(r: Request, cs: seq<Chunk>, free: nat) {
    match r
    case Foreground(min) => free >= min
    case Background => cs == [] || free >= cs[|cs| - 1].size / 2
  }

  /** The size of the next chunk, in 64-bit arithmetic. */
  function NewChunkSize(r: Request, cs: seq<Chunk>): nat {
    var doubled := if cs == [] then DEFAULT_SEGMENT_SIZE else Rem(cs[|cs| - 1].size * GROW_MULTIPLIER, WORD);
    AlignUp(Rem(Max(if r.Foreground? then r.min else MIN_SEGMENT_SIZE, doubled), WORD))
  }

  /** What growth aims at: what was asked for, and twice the last chunk. */
  function Wanted(r: Request, last: nat): nat {
    Max(if r.Foreground? then r.min else MIN_SEGMENT_SIZE, 2 * last)
  }

  /** The least whole number of pages that is at least twice the last chunk and at least what was asked for; or
      zero, exactly when rounding up a request in the last page of the 64-bit range wrapped around. */
  ghost predicate GoodSize(cs: seq<Chunk>, r: Request, n: nat) {
    && cs != [] && n < WORD && Rem(n, PAGE_SIZE) == 0
    && (n == 0 || Wanted(r, cs[|cs| - 1].size) <= n < Wanted(r, cs[|cs| - 1].size) + PAGE_SIZE)
    && (n == 0 <==> r.Foreground? && r.min + PAGE_SIZE > WORD)
  }

  /** The least number of whole pages that is enough. */
  lemma NewChunkGrows(r: Request, cs: seq<Chunk>)
    requires cs != [] && 0 < cs[|cs| - 1].size <= ADDRESS_SPACE && (r.Foreground? ==> r.min < WORD)
    ensures GoodSize(cs, r, NewChunkSize(r, cs))
  {
    var last := cs[|cs| - 1].size;
    var v := Max(if r.Foreground? then r.min else MIN_SEGMENT_SIZE, last * 2);
    PageSizeBound();
    Unique(last * 2, WORD, 0, last * 2);
    Unique(v, WORD, 0, v);
    AlignUpRounds(v);
  }

  /** The requests that carry the new file size past 2^64: the request still rounds up without wrapping, and
      comes within a page of 2^64 on top of the `total` bytes in use. */
  predicate Wraps(r: Request, total: nat) {
    r.Foreground? && r.min + PAGE_SIZE <= WORD < total + r.min + PAGE_SIZE
  }

  // ---- how many chunks there can be ----

  /** Every chunk is at least twice as large as the one before, and the first is at least 1 MiB. */
  ghost predicate Doubling(cs: seq<Chunk>) {
    && (|cs| > 0 ==> cs[0].size >= MIN_SEGMENT_SIZE)
    && forall i :: 1 <= i < |cs| ==> cs[i].size >= GROW_MULTIPLIER * cs[i - 1].size
  }

  lemma {:induction false} DoublingSizes(cs: seq<Chunk>, i: nat)
    requires Doubling(cs) && i < |cs|
    ensures cs[i].size >= MIN_SEGMENT_SIZE * Pow2(i)
  {
    if i > 0 {
      DoublingSizes(cs, i - 1);
    }
  }

  /** k chunks total at least 2^20 * (2^k - 1) bytes. */
  lemma {:induction false} DoublingTotal(cs: seq<Chunk>, k: nat)
    requires Doubling(cs) && k <= |cs|
    ensures TotalSize(cs[..k]) >= MIN_SEGMENT_SIZE * (Pow2(k) - 1)
  {
    if k > 0 {
      DoublingTotal(cs, k - 1);
      DoublingSizes(cs, k - 1);
      assert cs[..k][..k - 1] == cs[..k - 1];
    }
  }

  /** In a 48-bit address space at most 28 chunks fit, far from the table's 64. */
  lemma AtMost28(cs: seq<Chunk>)
    requires Doubling(cs) && TotalSize(cs) <= ADDRESS_SPACE
    ensures |cs| <= 28
  {
    if |cs| > 28 {
      DoublingTotal(cs, 29);
      TotalMonotone(cs, 29, |cs|);
      assert cs[..|cs|] == cs;
      Pow2Of29();
      assert false;
    }
  }

  lemma Pow2Of29()
    ensures Pow2(29) == 0x2000_0000
  {
    assert Pow2(4) == 16;
    Pow2Adds(4, 4);
    assert Pow2(8) == 256;
    Pow2Adds(8, 8);
    assert Pow2(16) == 0x1_0000;
    assert Pow2(5) == 32;
    Pow2Adds(8, 5);
    assert Pow2(13) == 0x2000;
    Pow2Adds(16, 13);
  }

  // ---- wrap-around ----

  lemma Pow2Of64()
    ensures Pow2(64) == WORD
  {
    assert Pow2(4) == 16;
    Pow2Adds(4, 4);
    assert Pow2(8) == 256;
    Pow2Adds(8, 8);
    assert Pow2(16) == 0x1_0000;
    Pow2Adds(16, 16);
    assert Pow2(32) == 0x1_0000_0000;
    Pow2Adds(32, 32);
  }

  lemma WordIsWholePages()
    ensures Pow2(64 - PAGE_SHIFT) * PAGE_SIZE == WORD
  {
    Pow2Of64();
    Pow2Adds(64 - PAGE_SHIFT, PAGE_SHIFT);
  }

  /** All but one page of the 64-bit range rounds to itself. */
  lemma HugeIsWholePages(huge: nat)
    requires huge + PAGE_SIZE == WORD
    ensures AlignUp(huge) == huge
  {
    var q := Pow2(64 - PAGE_SHIFT) - 1;
    WordIsWholePages();
    assert huge == q * PAGE_SIZE;
    Unique(huge + PAGE_SIZE - 1, WORD, 0, huge + PAGE_SIZE - 1);
    Unique(huge + PAGE_SIZE - 1, PAGE_SIZE, q, PAGE_SIZE - 1);
  }

  lemma HugeChunk(cs: seq<Chunk>, huge: nat)
    requires cs != [] && cs[|cs| - 1].size <= ADDRESS_SPACE && huge + PAGE_SIZE == WORD
    ensures NewChunkSize(Foreground(huge), cs) == huge
  {
    var last := cs[|cs| - 1].size;
    PageSizeBound();
    HugeIsWholePages(huge);
    Unique(last * 2, WORD, 0, last * 2);
    Unique(huge, WORD, 0, huge);
  }

  /** A request for all but one page of the 64-bit range makes the computed file size wrap: whatever
      the list, the file would lose its last page. */
  lemma HugeRequestShrinksFile(cs: seq<Chunk>, huge: nat)
    requires Doubling(cs) && cs != [] && TotalSize(cs) <= ADDRESS_SPACE && huge + PAGE_SIZE == WORD
    ensures TotalSize(cs) >= PAGE_SIZE
    ensures Rem(TotalSize(cs) + NewChunkSize(Foreground(huge), cs), WORD) == TotalSize(cs) - PAGE_SIZE
  {
    PageSizeBound();
    assert cs[..1][..0] == [];
    TotalMonotone(cs, 1, |cs|);
    assert cs[..|cs|] == cs;
    Unique(TotalSize(cs) + huge, WORD, 1, TotalSize(cs) - PAGE_SIZE);
    HugeChunk(cs, huge);
  }
}
