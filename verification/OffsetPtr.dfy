/** The three encodings of segmented_offset_ptr, in 64-bit arithmetic. */
module PointerEncoding {
  import opened DivMod
  import opened Platform
  import opened Chunks
  import opened Mappings

  type Word = x: nat | x < 0x1_0000_0000_0000_0000

  function Add(a: Word, b: Word): Word {
    if a + b < WORD then a + b else a + b - WORD
  }

  function Sub(a: Word, b: Word): Word {
    if a >= b then a - b else a + WORD - b
  }

  /** The offset that stands for a null pointer. */
  const NULL_OFFSET: Word := 1

  /** A segment of another manager, or an anonymous one. */
  datatype Foreign = Foreign(base: nat, size: nat, anon: bool)

  /** What a process's registry knows: the chunks of one shared-memory manager, and the rest. */
  datatype Memory = Memory(shm: Proc, others: seq<Foreign>)

  /** The owner of an address, as the registry finds it. */
  datatype Place = Unmanaged | Shared(i: nat) | Elsewhere(i: nat)

  /** The registry works on whole pages, so a segment owns its last page to the end. */
  predicate Owns(base: nat, size: nat, addr: nat) {
    PageWithin(PageOf(addr), base, size)
  }

  function FindShared(p: Proc, addr: nat, i: nat): (j: nat)
    requires |p.bases| == |p.chunks| && i <= |p.bases|
    ensures i <= j <= |p.bases|
    ensures j < |p.bases| ==> Owns(p.bases[j], p.chunks[j].size, addr)
    ensures forall k :: i <= k < j ==> !Owns(p.bases[k], p.chunks[k].size, addr)
    decreases |p.bases| - i
  {
    if i == |p.bases| || Owns(p.bases[i], p.chunks[i].size, addr) then i else FindShared(p, addr, i + 1)
  }

  function FindOther(fs: seq<Foreign>, addr: nat, i: nat): (j: nat)
    requires i <= |fs|
    ensures i <= j <= |fs|
    ensures j < |fs| ==> Owns(fs[j].base, fs[j].size, addr)
    ensures forall k :: i <= k < j ==> !Owns(fs[k].base, fs[k].size, addr)
    decreases |fs| - i
  {
    if i == |fs| || Owns(fs[i].base, fs[i].size, addr) then i else FindOther(fs, addr, i + 1)
  }

  function Find(m: Memory, addr: Word): Place
    requires |m.shm.bases| == |m.shm.chunks|
  {
    var i := FindShared(m.shm, addr, 0);
    var j := FindOther(m.others, addr, 0);
    if i < |m.shm.bases| then Shared(i) else if j < |m.others| then Elsewhere(j) else Unmanaged
  }

  /** find_segment_by_file_offset: the first chunk that contains the offset. */
  function ChunkAt(cs: seq<Chunk>, off: nat, i: nat): (j: nat)
    requires i <= |cs|
    ensures i <= j <= |cs|
    ensures j < |cs| ==> Inside(cs[j], off)
    ensures forall k :: i <= k < j ==> !Inside(cs[k], off)
    decreases |cs| - i
  {
    if i == |cs| || Inside(cs[i], off) then i else ChunkAt(cs, off, i + 1)
  }

  /** Chunks tile the file, consist of whole pages and are mapped apart from each other and from
      everything else in the process. */
  ghost predicate ShmOk(p: Proc) {
    && Placed(p) && Tiles(p.chunks)
    && forall i :: 0 <= i < |p.chunks| ==> Rem(p.chunks[i].size, PAGE_SIZE) == 0
  }

  ghost predicate MemoryOk(m: Memory) {
    && ShmOk(m.shm)
    && (forall j :: 0 <= j < |m.others| ==>
          Rem(m.others[j].base, PAGE_SIZE) == 0 && m.others[j].base + m.others[j].size <= ADDRESS_SPACE)
    && (forall i, j, a {:trigger Owns(m.shm.bases[i], m.shm.chunks[i].size, a), m.others[j]} ::
          0 <= i < |m.shm.bases| && 0 <= j < |m.others| ==>
            !(Owns(m.shm.bases[i], m.shm.chunks[i].size, a) && Owns(m.others[j].base, m.others[j].size, a)))
    && (forall i, j, a {:trigger Owns(m.others[i].base, m.others[i].size, a), m.others[j]} ::
          0 <= i < j < |m.others| ==>
            !(Owns(m.others[i].base, m.others[i].size, a) && Owns(m.others[j].base, m.others[j].size, a)))
  }

  lemma WholePagesEnd(base: nat, size: nat, q: nat, addr: nat)
    requires base + size == q * PAGE_SIZE
    ensures PageOf(addr) < PageEnd(base, size) <==> addr < base + size
  {
    Unique(base + size + PAGE_SIZE - 1, PAGE_SIZE, q, PAGE_SIZE - 1);
    QuotAtLeast(addr, PAGE_SIZE, q);
  }

  /** With whole pages, owning is being inside. */
  lemma OwnsIsInside(base: nat, size: nat, addr: nat)
    requires Rem(base, PAGE_SIZE) == 0 && Rem(size, PAGE_SIZE) == 0
    ensures Owns(base, size, addr) <==> base <= addr < base + size
  {
    QuotRem(base, PAGE_SIZE);
    QuotRem(size, PAGE_SIZE);
    QuotAtLeast(addr, PAGE_SIZE, Quot(base, PAGE_SIZE));
    Distribute(Quot(base, PAGE_SIZE), Quot(size, PAGE_SIZE), PAGE_SIZE, 1);
    WholePagesEnd(base, size, Quot(base, PAGE_SIZE) + Quot(size, PAGE_SIZE), addr);
  }

  lemma SharedInside(p: Proc, i: nat, addr: nat)
    requires ShmOk(p) && i < |p.bases|
    ensures Owns(p.bases[i], p.chunks[i].size, addr) <==> p.bases[i] <= addr < p.bases[i] + p.chunks[i].size
  {
    OwnsIsInside(p.bases[i], p.chunks[i].size, addr);
  }

  /** Exactly one chunk owns an address inside it. */
  lemma FindSharedUnique(p: Proc, i: nat, addr: nat)
    requires ShmOk(p) && i < |p.bases| && p.bases[i] <= addr < p.bases[i] + p.chunks[i].size
    ensures FindShared(p, addr, 0) == i
  {
    var j := FindShared(p, addr, 0);
    SharedInside(p, i, addr);
    assert j <= i;
    SharedInside(p, j, addr);
  }

  /** Exactly one chunk of a tiling contains an offset. */
  lemma ChunkAtUnique(cs: seq<Chunk>, k: nat, off: nat)
    requires Tiles(cs) && k < |cs| && Inside(cs[k], off)
    ensures ChunkAt(cs, off, 0) == k
  {
    var j := ChunkAt(cs, off, 0);
    assert j <= k;
    InsideUnique(cs, j, k, off);
  }

  /** The file offset of an address in chunk i. */
  function FileOffset(p: Proc, i: nat, addr: nat): (off: Word)
    requires ShmOk(p) && i < |p.bases| && p.bases[i] <= addr < p.bases[i] + p.chunks[i].size
    ensures Inside(p.chunks[i], off) && off - p.chunks[i].off == addr - p.bases[i]
  {
    var off := p.chunks[i].off + (addr - p.bases[i]);
    assert off < WORD by {
      TotalFits(p);
      InsideBelowTotal(p.chunks, i, off);
    }
    off
  }

  /** Where a process sees a file offset that it has mapped. */
  function Image(p: Proc, off: nat): (addr: Word)
    requires ShmOk(p) && off < TotalSize(p.chunks)
    ensures var k := ChunkAt(p.chunks, off, 0);
            && k < |p.chunks| && p.bases[k] <= addr < p.bases[k] + p.chunks[k].size
            && addr - p.bases[k] == off - p.chunks[k].off
  {
    var k := ChunkAt(p.chunks, off, 0);
    assert k < |p.chunks| by {
      var i := TilesCover(p.chunks, off);
      ChunkAtUnique(p.chunks, i, off);
    }
    p.bases[k] + (off - p.chunks[k].off)
  }

  // ---- set and get ----

  datatype SetResult = Encoded(offset: Word) | Threw

  /** A pointer object lives outside every segment, in an anonymous one, or in a chunk of the
      shared-memory manager under consideration. */
  predicate GoodHome(m: Memory, self: Word)
    requires |m.shm.bases| == |m.shm.chunks|
  {
    var place := Find(m, self);
    place.Elsewhere? ==> place.i < |m.others| && m.others[place.i].anon
  }

  /** What the registry may answer for an address: its owner or, when the thread hits a stale cache entry,
      nothing (`CachedLookup.DisagreesIffStale`). */
  predicate MayFind(m: Memory, addr: Word, place: Place)
    requires |m.shm.bases| == |m.shm.chunks|
  {
    place == Find(m, addr) || place.Unmanaged?
  }

  /** set(): the offset stored by the pointer object at `self` for the raw pointer `target`, when the registry
      answers `home` for the object and `there` for the target. */
  function SetAt(m: Memory, home: Place, there: Place, self: Word, target: Word): SetResult
    requires MemoryOk(m) && GoodHome(m, self) && MayFind(m, self, home) && MayFind(m, target, there)
  {
    if target == 0 then Encoded(NULL_OFFSET)
    else match home
      case Unmanaged => Encoded(Sub(target, self))
      case Elsewhere(j) => Encoded(Sub(target, m.others[j].base))
      case Shared(i) =>
        match there
        case Shared(k) =>
          SharedInside(m.shm, i, self);
          SharedInside(m.shm, k, target);
          Encoded(Sub(FileOffset(m.shm, k, target), FileOffset(m.shm, i, self)))
        case _ => Threw
  }

  /** get(): the raw pointer, when the registry answers `home` for the object. `later` is the manager's list
      after lazy discovery, consulted only when the target offset is not mapped yet; null if it is not found
      there either. */
  function GetAt(m: Memory, later: Proc, home: Place, self: Word, offset: Word): Word
    requires MemoryOk(m) && GoodHome(m, self) && MayFind(m, self, home) && ShmOk(later)
  {
    if offset == NULL_OFFSET then 0
    else match home
      case Unmanaged => Add(self, offset)
      case Elsewhere(j) => Add(m.others[j].base, offset)
      case Shared(i) =>
        SharedInside(m.shm, i, self);
        var off := Add(FileOffset(m.shm, i, self), offset);
        if ChunkAt(m.shm.chunks, off, 0) < |m.shm.chunks| then Resolve(m.shm, off) else Resolve(later, off)
  }

  /** set() and get() when no lookup meets a stale entry. */
  function Set(m: Memory, self: Word, target: Word): SetResult
    requires MemoryOk(m) && GoodHome(m, self)
  {
    SetAt(m, Find(m, self), Find(m, target), self, target)
  }

  function Get(m: Memory, later: Proc, self: Word, offset: Word): Word
    requires MemoryOk(m) && GoodHome(m, self) && ShmOk(later)
  {
    GetAt(m, later, Find(m, self), self, offset)
  }

  function Resolve(p: Proc, off: Word): Word
    requires ShmOk(p)
  {
    var k := ChunkAt(p.chunks, off, 0);
    if k == |p.chunks| then 0 else p.bases[k] + (off - p.chunks[k].off)
  }

  lemma ResolveIsImage(p: Proc, off: Word)
    requires ShmOk(p)
    ensures Resolve(p, off) == if off < TotalSize(p.chunks) then Image(p, off) else 0
  {
    var k := ChunkAt(p.chunks, off, 0);
    if k < |p.chunks| {
      InsideBelowTotal(p.chunks, k, off);
    }
  }

  lemma AddUndoesSub(a: Word, b: Word)
    ensures Add(b, Sub(a, b)) == a
  {
  }
}

/** What pointers keep: round trips across growth and copies, arithmetic, position independence. */
module PointerLaws {
  import opened DivMod
  import opened Platform
  import opened Chunks
  import opened Mappings
  import opened PointerEncoding

  /** Later in the same process: more chunks and more segments, none moved. */
  ghost predicate Extends(m: Memory, m': Memory) {
    && MemoryOk(m) && MemoryOk(m')
    && ProcGrows(m.shm, m'.shm) && m.others <= m'.others
  }

  /** A stack or heap object does not become part of a segment. */
  ghost predicate HomeStays(m: Memory, m': Memory, self: Word)
    requires Extends(m, m')
  {
    Find(m, self).Unmanaged? ==> Find(m', self).Unmanaged?
  }

  /** Growth does not change the owner of an owned address. */
  lemma OwnerStays(m: Memory, m': Memory, addr: Word)
    requires Extends(m, m') && !Find(m, addr).Unmanaged?
    ensures Find(m', addr) == Find(m, addr)
  {
    match Find(m, addr)
    case Shared(i) =>
      SharedInside(m.shm, i, addr);
      FindSharedUnique(m'.shm, i, addr);
    case Elsewhere(j) =>
      assert Owns(m.others[j].base, m.others[j].size, addr) && m'.others[j] == m.others[j];
      var i, k := FindShared(m'.shm, addr, 0), FindOther(m'.others, addr, 0);
      assert k <= j;
    case Unmanaged =>
  }

  /** set() can be called with these answers of the registry. */
  ghost predicate CanSet(m: Memory, home: Place, there: Place, self: Word, target: Word) {
    MemoryOk(m) && GoodHome(m, self) && MayFind(m, self, home) && MayFind(m, target, there)
  }

  /** The targets whose offset would be the null sentinel: one past the pointer object itself, the
      anonymous segment's base, or the object's file offset. */
  predicate CollidesAt(m: Memory, home: Place, there: Place, self: Word, target: Word)
    requires CanSet(m, home, there, self, target)
  {
    match home
    case Unmanaged => target == Add(self, 1)
    case Elsewhere(j) => target == Add(m.others[j].base, 1)
    case Shared(i) =>
      SharedInside(m.shm, i, self);
      (match there
       case Shared(k) =>
         SharedInside(m.shm, k, target);
         FileOffset(m.shm, k, target) == Add(FileOffset(m.shm, i, self), 1)
       case _ => false)
  }

  predicate Collides(m: Memory, self: Word, target: Word)
    requires MemoryOk(m) && GoodHome(m, self)
  {
    CollidesAt(m, Find(m, self), Find(m, target), self, target)
  }

  lemma FileOffsetStays(p: Proc, q: Proc, i: nat, addr: nat)
    requires ShmOk(p) && ShmOk(q) && ProcGrows(p, q) && i < |p.bases|
    requires p.bases[i] <= addr < p.bases[i] + p.chunks[i].size
    ensures q.bases[i] <= addr < q.bases[i] + q.chunks[i].size && FileOffset(q, i, addr) == FileOffset(p, i, addr)
  {
    assert q.chunks[i] == p.chunks[i] && q.bases[i] == p.bases[i];
  }

  lemma ResolvesBack(p: Proc, k: nat, addr: nat)
    requires ShmOk(p) && k < |p.bases| && p.bases[k] <= addr < p.bases[k] + p.chunks[k].size
    ensures Resolve(p, FileOffset(p, k, addr)) == addr && ChunkAt(p.chunks, FileOffset(p, k, addr), 0) < |p.chunks|
  {
    ChunkAtUnique(p.chunks, k, FileOffset(p, k, addr));
  }

  lemma SharedRoundTrip(m: Memory, m': Memory, later: Proc, self: Word, target: Word)
    requires Extends(m, m') && GoodHome(m, self) && ShmOk(later) && target != 0
    requires Find(m, self).Shared? && Find(m, target).Shared?
    ensures GoodHome(m', self)
    ensures Get(m', later, self, Set(m, self, target).offset) == target <==> !Collides(m, self, target)
  {
    var i, k := Find(m, self).i, Find(m, target).i;
    OwnerStays(m, m', self);
    SharedInside(m.shm, i, self);
    SharedInside(m.shm, k, target);
    FileOffsetStays(m.shm, m'.shm, i, self);
    FileOffsetStays(m.shm, m'.shm, k, target);
    var f, t := FileOffset(m.shm, i, self), FileOffset(m.shm, k, target);
    AddUndoesSub(t, f);
    ResolvesBack(m'.shm, k, target);
    SharedGet(m', later, i, self, Sub(t, f));
  }

  lemma SharedGet(m: Memory, later: Proc, i: nat, self: Word, d: Word)
    requires MemoryOk(m) && GoodHome(m, self) && ShmOk(later) && Find(m, self) == Shared(i)
    ensures i < |m.shm.bases| && m.shm.bases[i] <= self < m.shm.bases[i] + m.shm.chunks[i].size
    ensures var off := Add(FileOffset(m.shm, i, self), d);
            d != NULL_OFFSET && ChunkAt(m.shm.chunks, off, 0) < |m.shm.chunks| ==>
              Get(m, later, self, d) == Resolve(m.shm, off)
  {
    SharedInside(m.shm, i, self);
  }

  /** Round trip: if set() accepts a non-null pointer, get() at any later time gives it back exactly
      when it does not collide with the null sentinel. */
  lemma RoundTrip(m: Memory, m': Memory, later: Proc, self: Word, target: Word)
    requires Extends(m, m') && HomeStays(m, m', self) && GoodHome(m, self) && ShmOk(later) && target != 0
    requires Set(m, self, target).Encoded?
    ensures GoodHome(m', self)
    ensures Get(m', later, self, Set(m, self, target).offset) == target <==> !Collides(m, self, target)
  {
    match Find(m, self)
    case Unmanaged => AddUndoesSub(target, self);
    case Elsewhere(j) =>
      OwnerStays(m, m', self);
      AddUndoesSub(target, m.others[j].base);
    case Shared(i) => SharedRoundTrip(m, m', later, self, target);
  }

  /** The encoded offset is the null sentinel exactly for a colliding target. */
  lemma SentinelIffCollides(m: Memory, home: Place, there: Place, self: Word, target: Word)
    requires CanSet(m, home, there, self, target) && target != 0 && SetAt(m, home, there, self, target).Encoded?
    ensures SetAt(m, home, there, self, target).offset == NULL_OFFSET <==> CollidesAt(m, home, there, self, target)
  {
  }

  /** It does happen: a pointer on the stack to the byte after its own first byte reads back as null. */
  lemma SentinelHides(self: Word) returns (m: Memory, target: Word)
    requires self + 1 < WORD
    ensures MemoryOk(m) && GoodHome(m, self) && target != 0 && Set(m, self, target).Encoded?
    ensures Get(m, m.shm, self, Set(m, self, target).offset) == 0
  {
    m, target := Memory(Proc([], []), []), self + 1;
  }

  /** The address lies inside the mapped bytes of some chunk. */
  ghost predicate InSharedMemory(p: Proc, addr: nat)
    requires |p.bases| == |p.chunks|
  {
    exists i :: 0 <= i < |p.bases| && p.bases[i] <= addr < p.bases[i] + p.chunks[i].size
  }

  lemma SharedIffInside(m: Memory, addr: Word)
    requires MemoryOk(m)
    ensures Find(m, addr).Shared? <==> InSharedMemory(m.shm, addr)
  {
    if Find(m, addr).Shared? {
      SharedInside(m.shm, Find(m, addr).i, addr);
    }
    if i :| 0 <= i < |m.shm.bases| && m.shm.bases[i] <= addr < m.shm.bases[i] + m.shm.chunks[i].size {
      FindSharedUnique(m.shm, i, addr);
    }
  }

  /** set() throws exactly when an object inside the mapped bytes of shared memory, recognised as such, is given
      a non-null target outside all of them, or one inside that a stale hit hides. */
  lemma ThrowsIff(m: Memory, home: Place, there: Place, self: Word, target: Word)
    requires CanSet(m, home, there, self, target)
    ensures SetAt(m, home, there, self, target).Threw?
       <==> && target != 0 && InSharedMemory(m.shm, self) && home == Find(m, self)
            && (!InSharedMemory(m.shm, target) || there != Find(m, target))
  {
    SharedIffInside(m, self);
    SharedIffInside(m, target);
  }

  // ---- stale hits ----

  /** Chunks i and k lie as far apart in memory as in the file. */
  predicate InLine(p: Proc, i: nat, k: nat)
    requires i < |p.bases| == |p.chunks| && k < |p.bases|
  {
    p.bases[i] + p.chunks[k].off == p.bases[k] + p.chunks[i].off
  }

  /** Both file offsets are mapped, in chunks that are in line. */
  predicate OffsetsInLine(p: Proc, x: nat, y: nat)
    requires |p.bases| == |p.chunks|
  {
    var i, k := ChunkAt(p.chunks, x, 0), ChunkAt(p.chunks, y, 0);
    i < |p.bases| && k < |p.bases| && InLine(p, i, k)
  }

  /** The target lies in a chunk that is in line with chunk i: the same chunk, to begin with. */
  ghost predicate TargetInLine(p: Proc, i: nat, target: nat)
    requires i < |p.bases| == |p.chunks|
  {
    exists k :: 0 <= k < |p.bases| && p.bases[k] <= target < p.bases[k] + p.chunks[k].size && InLine(p, i, k)
  }

  /** Reading with the answer `seen` what was stored with the answer `home` is harmless: the answers are the
      same, or both ways of counting agree. */
  ghost predicate Harmless(m: Memory, later: Proc, home: Place, seen: Place, self: Word, target: Word)
    requires MemoryOk(m) && |later.bases| == |later.chunks| >= |m.shm.chunks|
  {
    home == seen || match Find(m, self)
                    case Unmanaged => true
                    case Elsewhere(j) => self == m.others[j].base
                    case Shared(i) => TargetInLine(later, i, target)
  }

  lemma SumIsTarget(a: Word, b: Word, target: Word)
    ensures Add(a, Sub(target, b)) == target <==> a == b
  {
  }

  /** Far from the ends of the 64-bit range, wrapping sums are sums. */
  lemma NearSum(self: Word, target: Word, f: Word, t: Word)
    requires self <= ADDRESS_SPACE && target <= ADDRESS_SPACE && f <= ADDRESS_SPACE && t <= ADDRESS_SPACE
    ensures Add(self, Sub(t, f)) == target <==> self + t == target + f
  {
  }

  /** Only the chunk of the target itself can be the one in line. */
  lemma LineOfOwner(p: Proc, i: nat, k: nat, target: Word)
    requires ShmOk(p) && i < |p.bases| && k < |p.bases| && p.bases[k] <= target < p.bases[k] + p.chunks[k].size
    ensures TargetInLine(p, i, target) <==> InLine(p, i, k)
  {
    if TargetInLine(p, i, target) {
      var j :| 0 <= j < |p.bases| && p.bases[j] <= target < p.bases[j] + p.chunks[j].size && InLine(p, i, j);
      FindSharedUnique(p, k, target);
      FindSharedUnique(p, j, target);
    }
  }

  /** Stored with the owner known, read with a stale hit. */
  lemma StaleRead(p: Proc, i: nat, k: nat, self: Word, target: Word)
    requires ShmOk(p) && i < |p.bases| && p.bases[i] <= self < p.bases[i] + p.chunks[i].size
    requires k < |p.bases| && p.bases[k] <= target < p.bases[k] + p.chunks[k].size
    ensures Add(self, Sub(FileOffset(p, k, target), FileOffset(p, i, self))) == target <==> TargetInLine(p, i, target)
  {
    var f, t := FileOffset(p, i, self), FileOffset(p, k, target);
    TotalFits(p);
    InsideBelowTotal(p.chunks, k, t);
    InsideBelowTotal(p.chunks, i, f);
    NearSum(self, target, f, t);
    LineOfOwner(p, i, k, target);
  }

  /** Stored with a stale hit, read with the owner known: a target in line is found. */
  lemma StaleWriteHits(p: Proc, i: nat, self: Word, target: Word)
    requires ShmOk(p) && i < |p.bases| && p.bases[i] <= self < p.bases[i] + p.chunks[i].size
    requires TargetInLine(p, i, target)
    ensures Resolve(p, Add(FileOffset(p, i, self), Sub(target, self))) == target
  {
    var k :| 0 <= k < |p.bases| && p.bases[k] <= target < p.bases[k] + p.chunks[k].size && InLine(p, i, k);
    var t := FileOffset(p, k, target);
    assert Add(FileOffset(p, i, self), Sub(target, self)) == t;
    ChunkAtUnique(p.chunks, k, t);
  }

  /** ... and only such a target is. */
  lemma StaleWriteMisses(p: Proc, i: nat, self: Word, target: Word)
    requires ShmOk(p) && i < |p.bases| && p.bases[i] <= self < p.bases[i] + p.chunks[i].size && target != 0
    requires Resolve(p, Add(FileOffset(p, i, self), Sub(target, self))) == target
    ensures TargetInLine(p, i, target)
  {
    var f := FileOffset(p, i, self);
    var off := Add(f, Sub(target, self));
    var k := ChunkAt(p.chunks, off, 0);
    TotalFits(p);
    InsideBelowTotal(p.chunks, i, f);
    InsideBelowTotal(p.chunks, k, off);
    assert off == f + target - self;
    assert InLine(p, i, k);
  }

  /** Looking in the shorter list first makes no difference. */
  lemma ResolveLonger(p: Proc, q: Proc, off: Word)
    requires ShmOk(p) && ShmOk(q) && ProcGrows(p, q) && ChunkAt(p.chunks, off, 0) < |p.chunks|
    ensures Resolve(p, off) == Resolve(q, off)
  {
    var k := ChunkAt(p.chunks, off, 0);
    assert q.chunks[k] == p.chunks[k];
    ChunkAtUnique(q.chunks, k, off);
  }

  lemma StaleSharedRoundTrip(m: Memory, m': Memory, later: Proc, home: Place, there: Place, seen: Place,
                             self: Word, target: Word)
    requires Extends(m, m') && GoodHome(m, self) && ShmOk(later) && target != 0 && Find(m, self).Shared?
    requires ProcGrows(m'.shm, later)
    requires MayFind(m, self, home) && MayFind(m, target, there) && MayFind(m', self, seen) && home != seen
    requires SetAt(m, home, there, self, target).Encoded?
    ensures GoodHome(m', self)
    ensures GetAt(m', later, seen, self, SetAt(m, home, there, self, target).offset) == target
       <==> SetAt(m, home, there, self, target).offset != NULL_OFFSET && TargetInLine(later, Find(m, self).i, target)
  {
    var i := Find(m, self).i;
    OwnerStays(m, m', self);
    SharedInside(m.shm, i, self);
    assert later.chunks[i] == m.shm.chunks[i] == m'.shm.chunks[i];
    assert FileOffset(later, i, self) == FileOffset(m.shm, i, self) == FileOffset(m'.shm, i, self);
    if home.Shared? {
      var k := there.i;
      SharedInside(m.shm, k, target);
      assert later.chunks[k] == m.shm.chunks[k] && FileOffset(later, k, target) == FileOffset(m.shm, k, target);
      StaleRead(later, i, k, self, target);
    } else {
      var off := Add(FileOffset(later, i, self), Sub(target, self));
      if TargetInLine(later, i, target) {
        StaleWriteHits(later, i, self, target);
      } else if Resolve(later, off) == target {
        StaleWriteMisses(later, i, self, target);
      }
      if ChunkAt(m'.shm.chunks, off, 0) < |m'.shm.chunks| {
        ResolveLonger(m'.shm, later, off);
      }
    }
  }

  lemma StaleAnonymousRoundTrip(m: Memory, m': Memory, later: Proc, home: Place, there: Place, seen: Place,
                                self: Word, target: Word)
    requires Extends(m, m') && GoodHome(m, self) && ShmOk(later) && target != 0 && Find(m, self).Elsewhere?
    requires MayFind(m, self, home) && MayFind(m, target, there) && MayFind(m', self, seen) && home != seen
    ensures GoodHome(m', self) && SetAt(m, home, there, self, target).Encoded?
    ensures GetAt(m', later, seen, self, SetAt(m, home, there, self, target).offset) == target
       <==> SetAt(m, home, there, self, target).offset != NULL_OFFSET && self == m.others[Find(m, self).i].base
  {
    OwnerStays(m, m', self);
    SumIsTarget(self, m.others[Find(m, self).i].base, target);
    SumIsTarget(m.others[Find(m, self).i].base, self, target);
  }

  /** Both times the same answer. */
  lemma SameAnswerRoundTrip(m: Memory, m': Memory, later: Proc, home: Place, there: Place, self: Word, target: Word)
    requires Extends(m, m') && HomeStays(m, m', self) && GoodHome(m, self) && ShmOk(later) && target != 0
    requires MayFind(m, self, home) && MayFind(m, target, there) && MayFind(m', self, home)
    requires SetAt(m, home, there, self, target).Encoded?
    ensures GoodHome(m', self)
    ensures GetAt(m', later, home, self, SetAt(m, home, there, self, target).offset) == target
       <==> SetAt(m, home, there, self, target).offset != NULL_OFFSET
  {
    if home.Unmanaged? {
      AddUndoesSub(target, self);
      if !Find(m, self).Unmanaged? {
        OwnerStays(m, m', self);
      }
    } else {
      RoundTrip(m, m', later, self, target);
      SentinelIffCollides(m, home, Find(m, target), self, target);
    }
  }

  /** The round trip with any lookup stale or not, across growth: an accepted pointer reads back exactly when it
      does not collide with the null sentinel and a difference between the answers at storing and at reading
      is harmless. */
  lemma StaleRoundTrip(m: Memory, m': Memory, later: Proc, home: Place, there: Place, seen: Place,
                       self: Word, target: Word)
    requires Extends(m, m') && HomeStays(m, m', self) && GoodHome(m, self) && ShmOk(later) && target != 0
    requires ProcGrows(m'.shm, later)
    requires CanSet(m, home, there, self, target) && MayFind(m', self, seen)
    requires SetAt(m, home, there, self, target).Encoded?
    ensures GoodHome(m', self)
    ensures GetAt(m', later, seen, self, SetAt(m, home, there, self, target).offset) == target
       <==> !CollidesAt(m, home, there, self, target) && Harmless(m, later, home, seen, self, target)
  {
    SentinelIffCollides(m, home, there, self, target);
    if home == seen {
      SameAnswerRoundTrip(m, m', later, home, there, self, target);
    } else if Find(m, self).Shared? {
      StaleSharedRoundTrip(m, m', later, home, there, seen, self, target);
    } else {
      StaleAnonymousRoundTrip(m, m', later, home, there, seen, self, target);
    }
  }

  /** For an object in shared memory no stale hit does harm as long as its target is in its own chunk. */
  lemma SameChunkSurvives(m: Memory, later: Proc, home: Place, seen: Place, self: Word, target: Word)
    requires MemoryOk(m) && ShmOk(later) && ProcGrows(m.shm, later)
    requires Find(m, self).Shared? && Find(m, target) == Find(m, self)
    ensures Harmless(m, later, home, seen, self, target)
  {
    var i := Find(m, self).i;
    SharedInside(m.shm, i, target);
    assert later.chunks[i] == m.shm.chunks[i] && InLine(later, i, i);
  }

  /** It does happen: an object `d` bytes into an anonymous segment stores a pointer, and a stale hit makes it
      decode to an address `d` bytes further. */
  lemma StaleHitMisdirects(base: nat, d: nat, target: Word) returns (m: Memory, self: Word)
    requires base > 0 && Rem(base, PAGE_SIZE) == 0 && base + PAGE_SIZE <= ADDRESS_SPACE && 0 < d < PAGE_SIZE
    requires target != 0 && target != base + 1
    ensures m == Memory(Proc([], []), [Foreign(base, PAGE_SIZE, true)]) && self == base + d
    ensures MemoryOk(m) && GoodHome(m, self) && Find(m, self).Elsewhere?
    ensures Set(m, self, target).Encoded?
    ensures GetAt(m, m.shm, Unmanaged, self, Set(m, self, target).offset) == Add(target, d)
  {
    m, self := Memory(Proc([], []), [Foreign(base, PAGE_SIZE, true)]), base + d;
    Unique(PAGE_SIZE, PAGE_SIZE, 1, 0);
    OwnsIsInside(base, PAGE_SIZE, self);
    assert Find(m, self) == Elsewhere(0);
  }

  /** Reading back at once, with the same answer, gives the pointer, or null if it collided. */
  lemma StoredReadsBack(m: Memory, home: Place, there: Place, self: Word, target: Word)
    requires CanSet(m, home, there, self, target) && SetAt(m, home, there, self, target).Encoded?
    ensures GetAt(m, m.shm, home, self, SetAt(m, home, there, self, target).offset)
         == if target != 0 && CollidesAt(m, home, there, self, target) then 0 else target
  {
    if target != 0 {
      SameAnswerRoundTrip(m, m, m.shm, home, there, self, target);
      SentinelIffCollides(m, home, there, self, target);
    }
  }

  // ---- copies ----

  /** One pointer object in a chain of copies: where it is, the memory when it was written, what the registry
      answered then for the object copied from, for the object itself and for the target, and the offset. */
  datatype Copy = Copy(m: Memory, seen: Place, home: Place, there: Place, self: Word, offset: Word)

  /** The location takes this pointer: set() does not throw and does not collide. */
  ghost predicate Accepts(c: Copy, target: Word) {
    && CanSet(c.m, c.home, c.there, c.self, target)
    && SetAt(c.m, c.home, c.there, c.self, target).Encoded? && !CollidesAt(c.m, c.home, c.there, c.self, target)
  }

  /** Object `c` is read later, in memory m and with the answer `seen`, without harm. */
  ghost predicate ReadLater(c: Copy, m: Memory, later: Proc, seen: Place, target: Word) {
    && Extends(c.m, m) && GoodHome(c.m, c.self) && HomeStays(c.m, m, c.self) && ShmOk(later) && ProcGrows(m.shm, later)
    && GoodHome(m, c.self) && MayFind(m, c.self, seen) && Harmless(c.m, later, c.home, seen, c.self, target)
  }

  /** `next` is written later than `c`, by reading `c` and encoding what it decodes to. */
  ghost predicate CopiedFrom(c: Copy, next: Copy, target: Word) {
    && ReadLater(c, next.m, next.m.shm, next.seen, target)
    && var raw := GetAt(next.m, next.m.shm, next.seen, c.self, c.offset);
       && CanSet(next.m, next.home, next.there, next.self, raw)
       && SetAt(next.m, next.home, next.there, next.self, raw) == Encoded(next.offset)
  }

  ghost predicate Holds(c: Copy, target: Word) {
    Accepts(c, target) && SetAt(c.m, c.home, c.there, c.self, target) == Encoded(c.offset)
  }

  ghost predicate IsChain(cs: seq<Copy>, target: Word) {
    && cs != [] && (forall i :: 0 <= i < |cs| ==> Accepts(cs[i], target)) && Holds(cs[0], target)
    && forall i :: 0 <= i < |cs| - 1 ==> CopiedFrom(cs[i], cs[i + 1], target)
  }

  lemma HeldReadsBack(c: Copy, m: Memory, later: Proc, seen: Place, target: Word)
    requires Holds(c, target) && ReadLater(c, m, later, seen, target) && target != 0
    ensures GetAt(m, later, seen, c.self, c.offset) == target
  {
    StaleRoundTrip(c.m, m, later, c.home, c.there, seen, c.self, target);
  }

  lemma {:induction false} ChainHoldsTarget(cs: seq<Copy>, target: Word, i: nat)
    requires IsChain(cs, target) && target != 0 && i < |cs|
    ensures Holds(cs[i], target)
  {
    if i > 0 {
      ChainHoldsTarget(cs, target, i - 1);
      assert CopiedFrom(cs[i - 1], cs[i], target);
      HeldReadsBack(cs[i - 1], cs[i].m, cs[i].m.shm, cs[i].seen, target);
    }
  }

  /** Any chain of re-encoding copies, through locations of all three kinds, across growth and with stale hits
      on the way as long as they are harmless, still decodes to the original pointer. */
  lemma CopiesKeepTarget(cs: seq<Copy>, target: Word, m: Memory, later: Proc, seen: Place)
    requires IsChain(cs, target) && target != 0 && ReadLater(cs[|cs| - 1], m, later, seen, target)
    ensures GetAt(m, later, seen, cs[|cs| - 1].self, cs[|cs| - 1].offset) == target
  {
    ChainHoldsTarget(cs, target, |cs| - 1);
    HeldReadsBack(cs[|cs| - 1], m, later, seen, target);
  }

  // ---- in-place arithmetic ----

  /** inc_offset: adds a byte count, in two's complement, to the offset. */
  function IncOffset(offset: Word, bytes: Word): Word {
    Add(offset, bytes)
  }

  /** The file offset an object in chunk i refers to. */
  function TargetOffset(m: Memory, self: Word, offset: Word): Word
    requires MemoryOk(m) && Find(m, self).Shared?
  {
    SharedInside(m.shm, Find(m, self).i, self);
    Add(FileOffset(m.shm, Find(m, self).i, self), offset)
  }

  lemma WrapAssociates(a: Word, b: Word, c: Word)
    ensures Add(Add(a, b), c) == Add(a, Add(b, c))
  {
  }

  /** Stepping a mapped file offset steps its image exactly when the two chunks are in line. */
  lemma ImageSteps(p: Proc, off: Word, bytes: Word)
    requires ShmOk(p) && off < TotalSize(p.chunks) && Add(off, bytes) < TotalSize(p.chunks)
    ensures Image(p, Add(off, bytes)) == Add(Image(p, off), bytes)
       <==> OffsetsInLine(p, off, Add(off, bytes))
  {
    TotalFits(p);
    assert bytes == Sub(Add(off, bytes), off);
    NearSum(Image(p, off), Image(p, Add(off, bytes)), off, Add(off, bytes));
  }

  /** A known object reads the image of its target, whether from the list as it is or after discovery. */
  lemma KnownReadsImage(m: Memory, later: Proc, self: Word, offset: Word)
    requires MemoryOk(m) && GoodHome(m, self) && Find(m, self).Shared? && ShmOk(later) && ProcGrows(m.shm, later)
    requires offset != NULL_OFFSET && TargetOffset(m, self, offset) < TotalSize(later.chunks)
    ensures Get(m, later, self, offset) == Image(later, TargetOffset(m, self, offset))
  {
    var off := TargetOffset(m, self, offset);
    ResolveIsImage(later, off);
    if ChunkAt(m.shm.chunks, off, 0) < |m.shm.chunks| {
      ResolveLonger(m.shm, later, off);
    }
  }

  /** Stepping a pointer in place steps the decoded address by as many bytes: always for objects on the stack, in
      anonymous segments or not recognised after a stale hit, and for objects in shared memory whose target is
      mapped before and after exactly when the two chunks are in line, as one chunk is with itself. */
  lemma ArithmeticCommutes(m: Memory, later: Proc, seen: Place, self: Word, offset: Word, bytes: Word)
    requires MemoryOk(m) && GoodHome(m, self) && MayFind(m, self, seen) && ShmOk(later) && ProcGrows(m.shm, later)
    requires offset != NULL_OFFSET && IncOffset(offset, bytes) != NULL_OFFSET
    requires seen.Shared? ==>
               && TargetOffset(m, self, offset) < TotalSize(later.chunks)
               && TargetOffset(m, self, IncOffset(offset, bytes)) < TotalSize(later.chunks)
    ensures GetAt(m, later, seen, self, IncOffset(offset, bytes)) == Add(GetAt(m, later, seen, self, offset), bytes)
       <==> (seen.Shared? ==>
               OffsetsInLine(later, TargetOffset(m, self, offset), TargetOffset(m, self, IncOffset(offset, bytes))))
  {
    match seen
    case Unmanaged => WrapAssociates(self, offset, bytes);
    case Elsewhere(j) => WrapAssociates(m.others[j].base, offset, bytes);
    case Shared(i) =>
      SharedInside(m.shm, i, self);
      WrapAssociates(FileOffset(m.shm, i, self), offset, bytes);
      KnownReadsImage(m, later, self, offset);
      KnownReadsImage(m, later, self, IncOffset(offset, bytes));
      ImageSteps(later, TargetOffset(m, self, offset), bytes);
  }

  // ---- aligned pointers never become null by accident ----

  predicate Even(x: nat) {
    x == 0 || (x >= 2 && Even(x - 2))
  }

  lemma {:induction false} EvenAdd(a: nat, b: nat)
    requires Even(b)
    ensures Even(a + b) <==> Even(a)
  {
    if b > 0 {
      EvenAdd(a, b - 2);
    }
  }

  lemma {:induction false} EvenDouble(h: nat)
    ensures Even(2 * h)
  {
    if h > 0 {
      EvenDouble(h - 1);
    }
  }

  lemma WrapEven(a: Word, b: Word)
    requires Even(a) && Even(b)
    ensures Even(Add(a, b)) && Even(Sub(a, b))
  {
    EvenDouble(HALF_WORD);
    EvenAdd(a, b);
    EvenAdd(Add(a, b), WORD);
    EvenAdd(Sub(a, b), b);
    EvenAdd(a, WORD);
  }

  lemma DoubleOut(q: nat, h: nat)
    ensures q * (2 * h) == 2 * (q * h)
  {
  }

  lemma PageMultipleEven(x: nat)
    requires Rem(x, PAGE_SIZE) == 0
    ensures Even(x)
  {
    QuotRem(x, PAGE_SIZE);
    DoubleOut(Quot(x, PAGE_SIZE), Pow2(PAGE_SHIFT - 1));
    EvenDouble(Quot(x, PAGE_SIZE) * Pow2(PAGE_SHIFT - 1));
  }

  lemma {:induction false} TotalEven(p: Proc, n: nat)
    requires ShmOk(p) && n <= |p.chunks|
    ensures Even(TotalSize(p.chunks[..n]))
  {
    if n > 0 {
      TotalEven(p, n - 1);
      PageMultipleEven(p.chunks[n - 1].size);
      EvenAdd(TotalSize(p.chunks[..n - 1]), p.chunks[n - 1].size);
      assert p.chunks[..n][..n - 1] == p.chunks[..n - 1];
    }
  }

  /** Addresses and file offsets of a chunk have the same parity. */
  lemma ChunkParity(p: Proc, i: nat, d: nat)
    requires ShmOk(p) && i < |p.chunks|
    ensures Even(p.bases[i] + d) <==> Even(d)
    ensures Even(p.chunks[i].off + d) <==> Even(d)
  {
    PageMultipleEven(p.bases[i]);
    TotalEven(p, i);
    EvenAdd(d, p.bases[i]);
    EvenAdd(d, p.chunks[i].off);
  }

  lemma FileOffsetEven(p: Proc, i: nat, addr: nat)
    requires ShmOk(p) && i < |p.bases| && p.bases[i] <= addr < p.bases[i] + p.chunks[i].size && Even(addr)
    ensures Even(FileOffset(p, i, addr))
  {
    ChunkParity(p, i, addr - p.bases[i]);
  }

  lemma SetEven(m: Memory, home: Place, there: Place, self: Word, target: Word)
    requires MemoryOk(m) && GoodHome(m, self) && Even(self) && Even(target) && target != 0
    requires MayFind(m, self, home) && MayFind(m, target, there) && SetAt(m, home, there, self, target).Encoded?
    ensures Even(SetAt(m, home, there, self, target).offset)
  {
    match home
    case Unmanaged => WrapEven(target, self);
    case Elsewhere(j) =>
      PageMultipleEven(m.others[j].base);
      WrapEven(target, m.others[j].base);
    case Shared(i) =>
      SharedInside(m.shm, i, self);
      SharedInside(m.shm, there.i, target);
      FileOffsetEven(m.shm, i, self);
      FileOffsetEven(m.shm, there.i, target);
      WrapEven(FileOffset(m.shm, there.i, target), FileOffset(m.shm, i, self));
  }

  lemma ResolveEven(p: Proc, off: Word)
    requires ShmOk(p) && Even(off)
    ensures Even(Resolve(p, off))
  {
    var k := ChunkAt(p.chunks, off, 0);
    if k < |p.chunks| {
      ChunkParity(p, k, off - p.chunks[k].off);
    }
  }

  lemma GetEven(m: Memory, later: Proc, home: Place, self: Word, offset: Word)
    requires MemoryOk(m) && GoodHome(m, self) && MayFind(m, self, home) && ShmOk(later) && Even(self)
    requires Even(offset) || offset == NULL_OFFSET
    ensures Even(GetAt(m, later, home, self, offset))
  {
    if offset != NULL_OFFSET {
      match home
      case Unmanaged => WrapEven(self, offset);
      case Elsewhere(j) =>
        PageMultipleEven(m.others[j].base);
        WrapEven(m.others[j].base, offset);
      case Shared(i) =>
        SharedInside(m.shm, i, self);
        FileOffsetEven(m.shm, i, self);
        var off := Add(FileOffset(m.shm, i, self), offset);
        WrapEven(FileOffset(m.shm, i, self), offset);
        ResolveEven(m.shm, off);
        ResolveEven(later, off);
    }
  }

  /** What a program does to its pointer objects, each named by its address. Every lookup may be stale. */
  datatype Op =
    | Store(m: Memory, home: Place, there: Place, self: Word, target: Word)
    | CopyTo(m: Memory, later: Proc, seen: Place, home: Place, there: Place, self: Word, source: Word)
    | Advance(self: Word, bytes: Word)

  /** The objects' offsets; `nulls` is auxiliary: the objects last given a null pointer. */
  datatype Objects = Objects(offsets: map<Word, Word>, nulls: set<Word>)

  /** alignof(T) >= 2: objects are 8-aligned, raw pointers and strides are even, and null pointers
      are not stepped. */
  ghost predicate OpOk(o: Objects, op: Op) {
    && Even(op.self)
    && match op
       case Store(m, home, there, self, target) => CanSet(m, home, there, self, target) && Even(target)
       case CopyTo(m, later, seen, home, there, self, source) =>
         && MemoryOk(m) && ShmOk(later) && GoodHome(m, source) && MayFind(m, source, seen)
         && Even(source) && source in o.offsets
         && CanSet(m, home, there, self, GetAt(m, later, seen, source, o.offsets[source]))
       case Advance(self, bytes) => self in o.offsets && self !in o.nulls && Even(bytes)
  }

  /** The object at `self` is given a raw pointer; if set() throws nothing changes. */
  ghost function Write(o: Objects, m: Memory, home: Place, there: Place, self: Word, target: Word): Objects
    requires CanSet(m, home, there, self, target)
  {
    match SetAt(m, home, there, self, target)
    case Threw => o
    case Encoded(offset) =>
      Objects(o.offsets[self := offset], if target == 0 then o.nulls + {self} else o.nulls - {self})
  }

  ghost function Apply(o: Objects, op: Op): Objects
    requires OpOk(o, op)
  {
    match op
    case Store(m, home, there, self, target) => Write(o, m, home, there, self, target)
    case CopyTo(m, later, seen, home, there, self, source) =>
      Write(o, m, home, there, self, GetAt(m, later, seen, source, o.offsets[source]))
    case Advance(self, bytes) => o.(offsets := o.offsets[self := IncOffset(o.offsets[self], bytes)])
  }

  /** An object reads as null exactly when a null pointer was stored in it. */
  ghost predicate NullsHonest(o: Objects) {
    && o.nulls <= o.offsets.Keys
    && forall x :: x in o.offsets ==> if x in o.nulls then o.offsets[x] == NULL_OFFSET else Even(o.offsets[x])
  }

  lemma WriteHonest(o: Objects, m: Memory, home: Place, there: Place, self: Word, target: Word)
    requires NullsHonest(o) && CanSet(m, home, there, self, target) && Even(self) && Even(target)
    ensures NullsHonest(Write(o, m, home, there, self, target))
  {
    if target != 0 && SetAt(m, home, there, self, target).Encoded? {
      SetEven(m, home, there, self, target);
    }
  }

  lemma ApplyHonest(o: Objects, op: Op)
    requires NullsHonest(o) && OpOk(o, op)
    ensures NullsHonest(Apply(o, op))
  {
    match op
    case Store(m, home, there, self, target) => WriteHonest(o, m, home, there, self, target);
    case CopyTo(m, later, seen, home, there, self, source) =>
      GetEven(m, later, seen, source, o.offsets[source]);
      WriteHonest(o, m, home, there, self, GetAt(m, later, seen, source, o.offsets[source]));
    case Advance(self, bytes) => WrapEven(o.offsets[self], bytes);
  }

  /** A program: every operation is allowed in the state it is applied to. */
  ghost predicate IsProgram(states: seq<Objects>, ops: seq<Op>) {
    && |states| == |ops| + 1 && states[0] == Objects(map[], {})
    && forall i :: 0 <= i < |ops| ==> OpOk(states[i], ops[i]) && states[i + 1] == Apply(states[i], ops[i])
  }

  lemma {:induction false} ProgramsAreHonest(states: seq<Objects>, ops: seq<Op>, i: nat)
    requires IsProgram(states, ops) && i < |states|
    ensures NullsHonest(states[i])
  {
    if i > 0 {
      ProgramsAreHonest(states, ops, i - 1);
      ApplyHonest(states[i - 1], ops[i - 1]);
    }
  }

  /** No sequence of stores, copies and arithmetic on aligned pointers turns a non-null pointer into
      the null sentinel, stale lookups or not. */
  lemma NeverNullByAccident(states: seq<Objects>, ops: seq<Op>, i: nat, self: Word)
    requires IsProgram(states, ops) && i < |states| && self in states[i].offsets
    ensures states[i].offsets[self] == NULL_OFFSET <==> self in states[i].nulls
  {
    ProgramsAreHonest(states, ops, i);
  }
}

/** The pointer object itself: one word of state, changed in place. The registry's answers are parameters. */
module SegmentedOffsetPtr {
  import opened Mappings
  import opened PointerEncoding
  import opened PointerLaws

  class OffsetPtr {
    const self: Word          // the address of this object
    var offset: Word          // m_offset

    constructor (self: Word)
      ensures this.self == self && offset == NULL_OFFSET
    {
      this.self := self;
      offset := NULL_OFFSET;
    }

    /** get(): what the object points to, given what the process has mapped. */
    function Raw(m: Memory, later: Proc, home: Place): Word
      requires MemoryOk(m) && GoodHome(m, self) && MayFind(m, self, home) && ShmOk(later)
      reads this
    {
      GetAt(m, later, home, self, offset)
    }

    /** set(): stores a raw pointer, or throws and leaves the object alone. What was stored reads back, with the
        same answer of the registry, unless it collides with the null sentinel; then the object becomes null. */
    method Assign(m: Memory, home: Place, there: Place, target: Word) returns (ok: bool)
      requires CanSet(m, home, there, self, target)
      modifies this
      ensures ok <==> target == 0 || !home.Shared? || there.Shared?
      ensures !ok ==> offset == old(offset)
      ensures ok ==> SetAt(m, home, there, self, target) == Encoded(offset)
      ensures ok ==>
                Raw(m, m.shm, home) == if target != 0 && CollidesAt(m, home, there, self, target) then 0 else target
    {
      var r := Encode(m, home, there, target);
      ok := r.Encoded?;
      if ok {
        offset := r.offset;
        StoredReadsBack(m, home, there, self, target);
      }
    }

    /** The three cases of set(). */
    method Encode(m: Memory, home: Place, there: Place, target: Word) returns (r: SetResult)
      requires CanSet(m, home, there, self, target)
      ensures r == SetAt(m, home, there, self, target)
    {
      if target == 0 {
        return Encoded(NULL_OFFSET);
      }
      if home.Unmanaged? {
        r := Encoded(Sub(target, self));
      } else if home.Elsewhere? {
        r := Encoded(Sub(target, m.others[home.i].base));
      } else if there.Shared? {
        SharedInside(m.shm, home.i, self);
        SharedInside(m.shm, there.i, target);
        var targetOff := FileOffset(m.shm, there.i, target);
        var selfOff := FileOffset(m.shm, home.i, self);
        r := Encoded(Sub(targetOff, selfOff));
      } else {
        r := Threw;
      }
    }

    /** Copy and assignment from another object always re-encode, because the two may live in
        different kinds of memory. */
    method CopyFrom(m: Memory, later: Proc, seen: Place, home: Place, there: Place, other: OffsetPtr) returns (ok: bool)
      requires MemoryOk(m) && GoodHome(m, other.self) && MayFind(m, other.self, seen) && ShmOk(later)
      requires CanSet(m, home, there, self, other.Raw(m, later, seen))
      modifies this
      ensures ok <==> old(other.Raw(m, later, seen)) == 0 || !home.Shared? || there.Shared?
      ensures ok ==> SetAt(m, home, there, self, old(other.Raw(m, later, seen))) == Encoded(offset)
      ensures var raw := old(other.Raw(m, later, seen));
              ok ==> Raw(m, m.shm, home) == if raw != 0 && CollidesAt(m, home, there, self, raw) then 0 else raw
      ensures !ok ==> offset == old(offset)
    {
      ok := Assign(m, home, there, other.Raw(m, later, seen));
    }

    /** ++, --, += and -=: no lookup, only the offset moves. */
    method Advance(bytes: Word)
      modifies this
      ensures offset == IncOffset(old(offset), bytes)
      ensures Sub(offset, bytes) == old(offset)
    {
      offset := Add(offset, bytes);
    }
  }
}
