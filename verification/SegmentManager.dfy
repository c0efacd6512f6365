/** segmented_segment_manager as one thread runs it: discovery, growth, and allocation over abstract
    inner allocators. */
module SegmentManager {
  import opened DivMod
  import opened Sequences
  import opened Platform
  import opened Chunks
  import opened Mappings
  import opened PointerEncoding

  /** A block handed out by an inner allocator. */
  datatype Block = Block(addr: nat, len: nat)

  /** How growing ended. */
  datatype Growth = Declined | Failed | Grew

  /** How discovery ended: it answered, or a mapping failed and it threw. */
  datatype Discovery = Answer(covered: bool) | MapFailed

  predicate InChunk(p: Proc, i: nat, b: Block) {
    i < |p.bases| == |p.chunks| && b.len > 0 && p.bases[i] <= b.addr && b.addr + b.len <= p.bases[i] + p.chunks[i].size
  }

  predicate BlocksApart(b: Block, c: Block) {
    b.addr + b.len <= c.addr || c.addr + c.len <= b.addr
  }

  /** Each inner allocator keeps its live blocks inside its segment and apart from each other. */
  ghost predicate BlocksOk(p: Proc, live: seq<set<Block>>) {
    && |live| == |p.chunks| == |p.bases|
    && (forall i, b :: 0 <= i < |live| && b in live[i] ==> InChunk(p, i, b))
    && (forall i, b, c :: 0 <= i < |live| && b in live[i] && c in live[i] && b != c ==> BlocksApart(b, c))
  }

  /** Live blocks never overlap, also across segments. */
  lemma LiveBlocksApart(p: Proc, live: seq<set<Block>>, i: nat, j: nat, b: Block, c: Block)
    requires Placed(p) && BlocksOk(p, live) && i < |live| && j < |live| && b in live[i] && c in live[j]
    ensures (i, b) == (j, c) || BlocksApart(b, c)
  {
    assert InChunk(p, i, b) && InChunk(p, j, c);
  }

  /** A range that ends before a page boundary has no page beyond it. */
  lemma RoundedEnd(base: nat, size: nat, next: nat)
    requires Rem(next, PAGE_SIZE) == 0 && base + size <= next
    ensures PageEnd(base, size) <= PageOf(next)
  {
    var q := PageOf(next);
    QuotRem(next, PAGE_SIZE);
    Distribute(q, 1, PAGE_SIZE, 1);
    QuotAtLeast(base + size + PAGE_SIZE - 1, PAGE_SIZE, q + 1);
  }

  lemma PageOfMonotone(a: nat, b: nat)
    requires a <= b
    ensures PageOf(a) <= PageOf(b)
  {
    QuotRem(a, PAGE_SIZE);
    QuotAtLeast(b, PAGE_SIZE, PageOf(a));
  }

  /** An address inside segment i is not on a page of any other segment. */
  lemma OwnerUnique(p: Proc, i: nat, j: nat, addr: nat)
    requires Placed(p) && i < |p.bases| && j < |p.bases|
    requires p.bases[i] <= addr < p.bases[i] + p.chunks[i].size && Owns(p.bases[j], p.chunks[j].size, addr)
    ensures i == j
  {
    if p.bases[j] + p.chunks[j].size <= p.bases[i] {
      RoundedEnd(p.bases[j], p.chunks[j].size, p.bases[i]);
      PageOfMonotone(p.bases[i], addr);
    } else {
      QuotRem(p.bases[j], PAGE_SIZE);
      QuotAtLeast(addr, PAGE_SIZE, PageBegin(p.bases[j]));
    }
  }

  lemma InsideOwns(base: nat, size: nat, addr: nat)
    requires base <= addr < base + size
    ensures Owns(base, size, addr)
  {
    BytePageInRange(base, size, addr);
  }

  lemma BlocksAppend(p: Proc, live: seq<set<Block>>, c: Chunk, base: nat)
    requires BlocksOk(p, live)
    ensures BlocksOk(WithChunk(p, c, base), live + [{}])
  {
    var q, all := WithChunk(p, c, base), live + [{}];
    forall i, b | 0 <= i < |all| && b in all[i] ensures InChunk(q, i, b) {
      assert b in live[i] && InChunk(p, i, b);
    }
    forall i, b, d | 0 <= i < |all| && b in all[i] && d in all[i] && b != d ensures BlocksApart(b, d) {
      assert b in live[i] && d in live[i];
    }
  }

  /** Putting a block into one inner allocator's set. */
  function WithBlock(live: seq<set<Block>>, i: nat, b: Block): seq<set<Block>>
    requires i < |live|
  {
    live[i := live[i] + {b}]
  }

  /** What an inner allocator promises of a block: inside its segment, apart from its live blocks. */
  predicate Available(p: Proc, live: seq<set<Block>>, i: nat, b: Block)
    requires i < |live|
  {
    InChunk(p, i, b) && forall c :: c in live[i] ==> BlocksApart(b, c)
  }

  lemma BlocksAdd(p: Proc, live: seq<set<Block>>, i: nat, b: Block)
    requires BlocksOk(p, live) && i < |live| && Available(p, live, i, b)
    ensures BlocksOk(p, WithBlock(live, i, b))
  {
    var all := WithBlock(live, i, b);
    forall j, c | 0 <= j < |all| && c in all[j] ensures InChunk(p, j, c) {
      assert c in live[j] || (j == i && c == b);
    }
    forall j, c, d | 0 <= j < |all| && c in all[j] && d in all[j] && c != d ensures BlocksApart(c, d) {
      assert (c in live[j] || (j == i && c == b)) && (d in live[j] || (j == i && d == b));
    }
  }

  /** A block available in one segment overlaps no block handed out before, in any segment. */
  lemma OtherBlockApart(p: Proc, live: seq<set<Block>>, i: nat, b: Block, j: nat, c: Block)
    requires Placed(p) && BlocksOk(p, live) && i < |live| && Available(p, live, i, b) && j < |live| && c in live[j]
    ensures c in WithBlock(live, i, b)[j] && BlocksApart(b, c)
  {
    if i != j {
      BlocksAdd(p, live, i, b);
      LiveBlocksApart(p, WithBlock(live, i, b), i, j, b, c);
    }
  }

  /** The new block is apart from everything that was live. */
  ghost predicate FreshBlock(before: seq<set<Block>>, after: seq<set<Block>>, b: Block) {
    |before| <= |after| && forall j, c :: 0 <= j < |before| && c in before[j] ==> c in after[j] && BlocksApart(b, c)
  }

  lemma BlockIsFresh(p: Proc, before: seq<set<Block>>, live: seq<set<Block>>, i: nat, b: Block)
    requires Placed(p) && BlocksOk(p, live) && before <= live && i < |live| && Available(p, live, i, b)
    ensures FreshBlock(before, WithBlock(live, i, b), b)
  {
    forall j, c | 0 <= j < |before| && c in before[j] ensures c in WithBlock(live, i, b)[j] && BlocksApart(b, c) {
      OtherBlockApart(p, live, i, b, j, c);
    }
  }

  /** Removing the blocks that start at an address removes exactly the one live block there. */
  lemma RemoveIsOne(p: Proc, live: seq<set<Block>>, i: nat, b: Block)
    requires BlocksOk(p, live) && i < |live| && b in live[i]
    ensures (set c | c in live[i] && c.addr != b.addr) == live[i] - {b}
  {
    forall c | c in live[i] && c != b ensures c.addr != b.addr {
      assert InChunk(p, i, b) && InChunk(p, i, c) && BlocksApart(b, c);
    }
  }

  lemma BlocksRemove(p: Proc, live: seq<set<Block>>, i: nat, b: Block)
    requires BlocksOk(p, live) && i < |live|
    ensures BlocksOk(p, live[i := live[i] - {b}])
  {
    var all := live[i := live[i] - {b}];
    assert forall j :: 0 <= j < |all| ==> all[j] <= live[j];
  }

  /** The first n inner allocators, in order, refuse this many bytes. */
  function Refusals(n: nat, bytes: nat): seq<(nat, nat)> {
    seq(n, k requires 0 <= k < n => (k, bytes))
  }

  lemma RefusalsStep(n: nat, bytes: nat)
    ensures Refusals(n + 1, bytes) == Refusals(n, bytes) + [(n, bytes)]
  {
  }

  /** bytes + kMinSegmentSize, in 64-bit arithmetic. */
  function WithHeadRoom(bytes: nat): (min: nat)
    requires bytes < WORD
    ensures min < WORD
  {
    if bytes + MIN_SEGMENT_SIZE < WORD then bytes + MIN_SEGMENT_SIZE else bytes + MIN_SEGMENT_SIZE - WORD
  }

  /** A longer list of segments, with nothing moved and the same blocks in the old ones. */
  predicate Longer(p: Proc, l: seq<set<Block>>, q: Proc, m: seq<set<Block>>) {
    p.chunks <= q.chunks && p.bases <= q.bases && l <= m
  }

  class Manager {
    const anon: bool
    var proc: Proc                 // segments_: each chunk and where it is mapped
    var live: seq<set<Block>>      // the live blocks of each inner allocator
    var free: seq<nat>             // how many bytes each inner allocator reports as free
    var fileSize: nat              // the size of the backing file
    ghost var failures: nat                // how many resizes and mappings have failed so far
    ghost var refused: seq<(nat, nat)>     // which inner allocators have refused how many bytes so far

    ghost predicate Valid()
      reads this
    {
      && proc.chunks != [] && Placed(proc) && BlocksOk(proc, live) && |free| == |proc.chunks|
      && (!anon ==> Tiles(proc.chunks))
      && forall i :: 0 <= i < |proc.chunks| ==> proc.chunks[i].size > 0
    }

    constructor (anon: bool, size: nat, base: nat)
      requires CanMap(Proc([], []), base, size)
      ensures Valid() && this.anon == anon && proc == Proc([Chunk(0, size)], [base]) && live == [{}]
      ensures failures == 0 && refused == [] && fileSize == size
    {
      this.anon := anon;
      fileSize := size;
      failures, refused := 0, [];
      free := [0];
      proc := Proc([Chunk(0, size)], [base]);
      live := [{}];
      new;
      assert proc.chunks[..0] == [];
    }

    /** shm_map_chunk or mmap_alloc: null, or a range clear of the process's other mappings. */
    method MapChunk(size: nat) returns (base: nat)
      modifies this`failures
      ensures base == 0 || CanMap(proc, base, size)
      ensures failures == old(failures) + if base == 0 then 1 else 0
    {
      base :| base == 0 || CanMap(proc, base, size);
      failures := failures + if base == 0 then 1 else 0;
    }

    /** get_size_unlocked. */
    method GetSize() returns (total: nat)
      ensures total == TotalSize(proc.chunks)
    {
      total := 0;
      for i := 0 to |proc.chunks|
        invariant total == TotalSize(proc.chunks[..i])
      {
        assert proc.chunks[..i + 1][..i] == proc.chunks[..i];
        total := total + proc.chunks[i].size;
      }
      assert proc.chunks[..|proc.chunks|] == proc.chunks;
    }

    /** The chunk that contains a file offset, unique because chunks tile the file. */
    method FindSegmentByFileOffset(off: nat) returns (i: nat)
      requires Valid() && !anon
      ensures i <= |proc.chunks|
      ensures i < |proc.chunks| <==> off < TotalSize(proc.chunks)
      ensures i < |proc.chunks| ==> Inside(proc.chunks[i], off)
      ensures forall j :: 0 <= j < |proc.chunks| && Inside(proc.chunks[j], off) ==> j == i
    {
      i := 0;
      while i < |proc.chunks| && !Inside(proc.chunks[i], off)
        invariant i <= |proc.chunks|
        invariant forall j :: 0 <= j < i ==> !Inside(proc.chunks[j], off)
      {
        i := i + 1;
      }
      if off < TotalSize(proc.chunks) {
        var k := TilesCover(proc.chunks, off);
      }
      if i < |proc.chunks| {
        InsideBelowTotal(proc.chunks, i, off);
        forall j | 0 <= j < |proc.chunks| && Inside(proc.chunks[j], off) ensures j == i {
          InsideUnique(proc.chunks, i, j, off);
        }
      }
    }

    /** add_segment_shm and add_segment_anon_preallocated: one more segment, nothing handed out. */
    method AddSegment(c: Chunk, base: nat)
      requires Valid() && CanMap(proc, base, c.size) && (!anon ==> c.off == TotalSize(proc.chunks))
      modifies this`proc, this`live, this`free
      ensures Valid() && proc == WithChunk(old(proc), c, base) && live == old(live) + [{}]
    {
      PlacedAppend(proc, c, base);
      if !anon {
        TilesAppend(proc.chunks, c);
      }
      BlocksAppend(proc, live, c, base);
      proc := WithChunk(proc, c, base);
      live := live + [{}];
      var unused: nat :| unused <= c.size;
      free := free + [unused];
    }

    /** Maps the next published chunk; null if the mapping fails. */
    method MapNext(published: seq<Chunk>) returns (ok: bool)
      requires Valid() && !anon && Tiles(published) && proc.chunks < published
      modifies this`proc, this`live, this`free, this`failures
      ensures Valid() && (!ok ==> proc == old(proc) && live == old(live))
      ensures failures == old(failures) + if ok then 0 else 1
      ensures Longer(old(proc), old(live), proc, live) && proc.chunks <= published
      ensures ok ==> && |proc.chunks| == |old(proc.chunks)| + 1
                     && TotalSize(proc.chunks) == TotalSize(old(proc.chunks)) + published[|old(proc.chunks)|].size
    {
      var i := |proc.chunks|;
      var c := published[i];
      assert published[..i] == proc.chunks;
      var base := MapChunk(c.size);
      ok := base != 0;
      if ok {
        TilesAppend(proc.chunks, c);
        AddSegment(c, base);
      }
    }

    /** Maps the published chunks this process does not have yet. Afterwards the list is a longer
        prefix of them; the answer is true exactly when the offset is now covered; and if it was not
        covered before and no mapping failed, everything published is mapped. It throws exactly if a mapping fails. */
    method LazyDiscoverGrowth(published: seq<Chunk>, off: nat) returns (r: Discovery)
      requires Valid() && (!anon ==> Tiles(published) && proc.chunks <= published)
      modifies this`proc, this`live, this`free, this`failures
      ensures Valid() && Longer(old(proc), old(live), proc, live)
      ensures failures >= old(failures) && (r.MapFailed? <==> failures > old(failures))
      ensures off < TotalSize(old(proc.chunks)) ==> proc == old(proc) && failures == old(failures)
      ensures anon ==> r == Answer(false) && proc == old(proc)
      ensures !anon ==> proc.chunks <= published
      ensures !anon && r.Answer? ==> (r.covered <==> off < TotalSize(proc.chunks))
      ensures !anon && r.Answer? && off >= TotalSize(old(proc.chunks)) ==> proc.chunks == published
    {
      if anon {
        return Answer(false);
      }
      var mapped := GetSize();
      if off < mapped {
        return Answer(true);
      }
      var discovered := false;
      var i := |proc.chunks|;
      while i < |published|
        invariant Valid() && i == |proc.chunks| && proc.chunks <= published && mapped == TotalSize(proc.chunks)
        invariant Longer(old(proc), old(live), proc, live)
        invariant (discovered || proc == old(proc)) && failures == old(failures)
      {
        var ok := MapNext(published);
        if !ok {
          return MapFailed;
        }
        discovered := true;
        mapped := mapped + published[i].size;
        i := i + 1;
      }
      r := Answer(discovered && off < mapped);
    }

    // ---- allocation ----

    /** The inner allocator of segment i: null, which is logged, or a block with room for `bytes`. A freshly
        constructed one has at most 1 MiB of overhead, so it cannot refuse what leaves that much. */
    method InnerAllocate(i: nat, bytes: nat, untouched: bool) returns (addr: nat, len: nat)
      requires Valid() && i < |live| && (untouched ==> live[i] == {})
      modifies this`refused
      ensures addr != 0 ==> len >= bytes && Available(proc, live, i, Block(addr, len))
      ensures untouched && proc.chunks[i].size >= bytes + MIN_SEGMENT_SIZE ==> addr != 0
      ensures refused == old(refused) + if addr == 0 then [(i, bytes)] else []
    {
      var room := if bytes == 0 then 1 else bytes;
      if untouched && proc.chunks[i].size >= bytes + MIN_SEGMENT_SIZE {
        addr, len := proc.bases[i], room;
      } else {
        len := room;
        addr :| addr == 0 || Available(proc, live, i, Block(addr, len));
      }
      refused := refused + if addr == 0 then [(i, bytes)] else [];
    }

    /** A block leaves its inner allocator. The worker is hinted exactly if less than half of the last segment is free
        after that. */
    method HandOut(k: nat, b: Block) returns (hint: bool)
      requires Valid() && k < |live| && Available(proc, live, k, b)
      modifies this`live, this`free
      ensures Valid() && live == WithBlock(old(live), k, b)
      ensures hint <==> free[|free| - 1] < proc.chunks[|proc.chunks| - 1].size / 2
    {
      BlocksAdd(proc, live, k, b);
      live := WithBlock(live, k, b);
      var unused: nat :| true;
      free := free[k := unused];
      hint := free[|free| - 1] < proc.chunks[|proc.chunks| - 1].size / 2;
    }

    /** Asks one inner allocator. */
    method TryOne(k: nat, bytes: nat, untouched: bool) returns (b: Block, hint: bool)
      requires Valid() && k < |live| && (untouched ==> live[k] == {})
      modifies this`live, this`free, this`refused
      ensures Valid()
      ensures b.addr == 0 ==> live == old(live) && free == old(free) && !hint && refused == old(refused) + [(k, bytes)]
      ensures b.addr != 0 ==> && b.len >= bytes && Available(proc, old(live), k, b)
                              && live == WithBlock(old(live), k, b) && refused == old(refused)
                              && (hint <==> free[|free| - 1] < proc.chunks[|proc.chunks| - 1].size / 2)
      ensures untouched && proc.chunks[k].size >= bytes + MIN_SEGMENT_SIZE ==> b.addr != 0
    {
      var got, len := InnerAllocate(k, bytes, untouched);
      b, hint := Block(got, len), false;
      if got != 0 {
        hint := HandOut(k, b);
      }
    }

    /** try_allocate_locked: the first segment that has room; null only if every segment has refused. `untouched`
        says that the last segment was just added. After a success the worker is hinted exactly if less than half of
        the last segment is free. */
    method TryAllocate(bytes: nat, untouched: bool) returns (addr: nat, hint: bool, ghost i: nat, ghost b: Block)
      requires Valid() && (untouched ==> live[|live| - 1] == {})
      modifies this`live, this`free, this`refused
      ensures Valid()
      ensures addr == 0 ==> live == old(live) && free == old(free) && !hint && i == |live|
      ensures addr != 0 ==> && i < |old(live)| && b.addr == addr && b.len >= bytes
                            && Available(proc, old(live), i, b) && live == WithBlock(old(live), i, b)
                            && (hint <==> free[|free| - 1] < proc.chunks[|proc.chunks| - 1].size / 2)
      ensures refused == old(refused) + Refusals(i, bytes)
      ensures untouched && proc.chunks[|proc.chunks| - 1].size >= bytes + MIN_SEGMENT_SIZE ==> addr != 0
    {
      addr, hint, i, b := 0, false, 0, Block(0, 0);
      var k := 0;
      while k < |proc.chunks|
        invariant Valid() && live == old(live) && free == old(free) && k <= |proc.chunks| && addr == 0 && !hint
        invariant refused == old(refused) + Refusals(k, bytes)
        invariant untouched && k == |proc.chunks| ==>
                    proc.chunks[|proc.chunks| - 1].size < bytes + MIN_SEGMENT_SIZE
      {
        RefusalsStep(k, bytes);
        var got, hinted := TryOne(k, bytes, untouched && k == |proc.chunks| - 1);
        if got.addr != 0 {
          addr, hint, i, b := got.addr, hinted, k, got;
          return;
        }
        k := k + 1;
      }
      i := k;
    }

    /** get_free_memory_unlocked: the sum over all inner allocators. */
    method FreeMemory() returns (total: nat)
      ensures total == Sum(free)
    {
      total := 0;
      for i := 0 to |free|
        invariant total == Sum(free[..i])
      {
        assert free[..i + 1][..i] == free[..i];
        total := total + free[i];
      }
      assert free[..|free|] == free;
    }

    /** ftruncate may fail. */
    method Resize(size: nat) returns (ok: bool)
      modifies this`failures, this`fileSize
      ensures failures == old(failures) + if ok then 0 else 1
      ensures fileSize == if ok then size else old(fileSize)
    {
      ok := *;
      fileSize := if ok then size else fileSize;
      failures := failures + if ok then 0 else 1;
    }

    /** Maps a new chunk at the end of the list, in the file behind `total` bytes. */
    method MapAndAdd(total: nat, size: nat) returns (ok: bool)
      requires Valid() && total == TotalSize(proc.chunks)
      modifies this`proc, this`live, this`free, this`failures
      ensures Valid() && failures == old(failures) + if ok then 0 else 1
      ensures !ok ==> proc == old(proc) && live == old(live)
      ensures ok ==> && proc.chunks == old(proc.chunks) + [Chunk(if anon then 0 else total, size)]
                     && old(proc.bases) < proc.bases && live == old(live) + [{}]
    {
      var base := MapChunk(size);
      ok := base != 0;
      if ok {
        AddSegment(Chunk(if anon then 0 else total, size), base);
      }
    }

    /** grow(min): declines exactly if enough bytes are free in total, throws exactly if resizing the file or mapping
        the chunk fails, otherwise resizes the file and appends a chunk at its old end. */
    method Grow(min: nat) returns (r: Growth)
      requires Valid() && min < WORD
      modifies this`proc, this`live, this`free, this`failures, this`fileSize
      ensures Valid()
      ensures r == Declined <==> Sum(old(free)) >= min
      ensures failures >= old(failures) && (r == Failed <==> failures > old(failures))
      ensures r != Grew ==> proc == old(proc) && live == old(live)
      ensures anon || r == Declined ==> fileSize == old(fileSize)
      ensures r == Grew ==> && |proc.chunks| == |old(proc.chunks)| + 1 && live == old(live) + [{}]
                            && old(proc.chunks) < proc.chunks && old(proc.bases) < proc.bases
                            && Appended(old(proc.chunks), proc.chunks[|proc.chunks| - 1], min, fileSize)
    {
      var unused := FreeMemory();
      if unused >= min {
        return Declined;
      }
      var size := NewChunkSize(Foreground(min), proc.chunks);
      var total := GetSize();
      assert proc.chunks[|proc.chunks| - 1].size <= ADDRESS_SPACE;
      NewChunkGrows(Foreground(min), proc.chunks);
      if !anon {
        var ok := Resize(Rem(total + size, WORD));
        if !ok {
          return Failed;
        }
      }
      var ok := MapAndAdd(total, size);
      r := if ok then Grew else Failed;
    }

    /** The chunk that growing appends, and the size of the file then. */
    ghost predicate Appended(cs: seq<Chunk>, c: Chunk, min: nat, file: nat) {
      && GoodSize(cs, Foreground(min), c.size) && c.off == (if anon then 0 else TotalSize(cs))
      && (!anon ==> file == Rem(TotalSize(cs) + c.size, WORD))
    }

    /** The slow path of allocate: grow, and unless that throws ask every segment again. */
    method GrowAndRetry(bytes: nat) returns (addr: nat, hint: bool, ghost i: nat, ghost b: Block, grown: Growth)
      requires Valid() && bytes < WORD
      modifies this`proc, this`live, this`free, this`failures, this`refused, this`fileSize
      ensures Valid() && old(proc.chunks) <= proc.chunks && old(proc.bases) <= proc.bases
      ensures grown == Declined <==> Sum(old(free)) >= WithHeadRoom(bytes)
      ensures failures >= old(failures) && (grown == Failed <==> failures > old(failures))
      ensures proc == old(proc) <==> grown != Grew
      ensures refused == old(refused) + if grown == Failed then [] else Refusals(if addr == 0 then |live| else i, bytes)
      ensures grown == Failed ==> addr == 0
      ensures addr == 0 ==> live == if grown == Grew then old(live) + [{}] else old(live)
      ensures addr == 0 && grown == Grew ==> bytes + MIN_SEGMENT_SIZE >= WORD
      ensures addr != 0 ==> && i < |live| && b in live[i] && b.addr == addr && b.len >= bytes
                            && FreshBlock(old(live), live, b)
    {
      addr, hint, i, b := 0, false, 0, Block(0, 0);
      grown := Grow(WithHeadRoom(bytes));
      if grown == Failed {
        return;
      }
      ghost var before := live;
      addr, hint, i, b := TryAllocate(bytes, grown == Grew);
      if addr != 0 {
        BlockIsFresh(proc, old(live), before, i, b);
      }
    }

    /** allocate(bytes): a block of at least that many bytes that overlaps no live block, or an
        exception (null here). It first asks every segment; only when all have refused it grows and, unless growing
        throws, asks them all again. Whenever growing really appended a segment, the retry succeeds, except
        for requests so large that adding the head room wraps around. */
    method Allocate(bytes: nat)
      returns (addr: nat, hint: bool, ghost i: nat, ghost b: Block, grown: Growth, ghost atOnce: bool)
      requires Valid() && bytes < WORD
      modifies this`proc, this`live, this`free, this`failures, this`refused, this`fileSize
      ensures Valid() && old(proc.chunks) <= proc.chunks && old(proc.bases) <= proc.bases
      ensures atOnce ==> && addr != 0 && proc == old(proc) && failures == old(failures)
                         && refused == old(refused) + Refusals(i, bytes)
      ensures !atOnce ==> && (grown == Declined <==> Sum(old(free)) >= WithHeadRoom(bytes))
                          && failures >= old(failures) && (grown == Failed <==> failures > old(failures))
                          && refused == old(refused) + Refusals(|old(live)|, bytes)
                                      + if grown == Failed then [] else Refusals(if addr == 0 then |live| else i, bytes)
      ensures !atOnce && grown == Failed ==> addr == 0
      ensures addr == 0 ==> live == if grown == Grew then old(live) + [{}] else old(live)
      ensures addr == 0 && grown == Grew ==> bytes + MIN_SEGMENT_SIZE >= WORD
      ensures addr != 0 ==> && i < |live| && b in live[i] && b.addr == addr && b.len >= bytes
                            && FreshBlock(old(live), live, b)
    {
      addr, hint, i, b := TryAllocate(bytes, false);
      atOnce := addr != 0;
      if addr != 0 {
        grown := Declined;
        BlockIsFresh(proc, old(live), old(live), i, b);
      } else {
        addr, hint, i, b, grown := GrowAndRetry(bytes);
      }
    }

    /** segment_registry::find and smgr_for: the segment whose pages hold the address. */
    method OwnerOf(addr: nat) returns (k: nat)
      requires Valid()
      ensures k <= |proc.bases|
      ensures k < |proc.bases| ==> Owns(proc.bases[k], proc.chunks[k].size, addr)
      ensures forall j :: 0 <= j < k ==> !Owns(proc.bases[j], proc.chunks[j].size, addr)
    {
      k := 0;
      while k < |proc.bases| && !Owns(proc.bases[k], proc.chunks[k].size, addr)
        invariant k <= |proc.bases|
        invariant forall j :: 0 <= j < k ==> !Owns(proc.bases[j], proc.chunks[j].size, addr)
      {
        k := k + 1;
      }
    }

    /** deallocate(addr), for null or the start of a live block, wherever it is and whatever segments
        were added since: exactly that block is returned, to the allocator that handed it out. If the lookup
        meets a stale cache entry (`stale`), the block is not returned to anyone. */
    method Deallocate(addr: nat, stale: bool, ghost i: nat, ghost b: Block)
      requires Valid() && (addr == 0 || (i < |live| && b in live[i] && b.addr == addr))
      modifies this`live, this`free
      ensures Valid()
      ensures live == if addr == 0 || stale then old(live) else old(live)[i := old(live)[i] - {b}]
    {
      if addr == 0 || stale {
        return;
      }
      var k := OwnerOf(addr);
      assert InChunk(proc, i, b);
      InsideOwns(proc.bases[i], proc.chunks[i].size, addr);
      OwnerUnique(proc, i, k, addr);
      RemoveIsOne(proc, live, i, b);
      BlocksRemove(proc, live, i, b);
      live := live[k := set c | c in live[k] && c.addr != addr];
      var unused: nat :| true;
      free := free[k := unused];
    }
  }
}
