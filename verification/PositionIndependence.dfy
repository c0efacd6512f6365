/** A pointer stored in shared memory means the same in every process that maps the file. */
module PositionIndependence {
  import opened DivMod
  import opened Platform
  import opened Chunks
  import opened Mappings
  import opened PointerEncoding
  import opened PointerLaws
  import opened GrowthProtocol
  import opened GrowthSafety

  lemma FindImage(m: Memory, off: nat)
    requires MemoryOk(m) && off < TotalSize(m.shm.chunks)
    ensures Find(m, Image(m.shm, off)) == Shared(ChunkAt(m.shm.chunks, off, 0)) && Image(m.shm, off) != 0
  {
    FindSharedUnique(m.shm, ChunkAt(m.shm.chunks, off, 0), Image(m.shm, off));
  }

  /** Encoding forgets where the process mapped the file: the offset is the distance in the file. */
  lemma EncodesDistance(m: Memory, f: Word, t: Word)
    requires MemoryOk(m) && f < TotalSize(m.shm.chunks) && t < TotalSize(m.shm.chunks)
    ensures GoodHome(m, Image(m.shm, f)) && Set(m, Image(m.shm, f), Image(m.shm, t)) == Encoded(Sub(t, f))
  {
    FindImage(m, f);
    FindImage(m, t);
  }

  lemma OffsetOfImage(p: Proc, off: nat)
    requires ShmOk(p) && off < TotalSize(p.chunks)
    ensures FileOffset(p, ChunkAt(p.chunks, off, 0), Image(p, off)) == off
  {
  }

  lemma FoundIffBelowTotal(cs: seq<Chunk>, off: nat)
    requires Tiles(cs)
    ensures ChunkAt(cs, off, 0) < |cs| <==> off < TotalSize(cs)
  {
    var k := ChunkAt(cs, off, 0);
    if k < |cs| {
      InsideBelowTotal(cs, k, off);
    }
    if off < TotalSize(cs) {
      var i := TilesCover(cs, off);
      ChunkAtUnique(cs, i, off);
    }
  }

  // ---- in the runs of the growth protocol ----

  /** Every process's list satisfies what decoding needs. */
  lemma ListDecodes(w: World, p: nat)
    requires Inv(w) && p in w.procs
    ensures ShmOk(w.procs[p]) && TotalSize(w.procs[p].chunks) <= ADDRESS_SPACE
  {
    ListTiles(w, p);
    assert OpenerOk(w, p);
    TotalFits(w.procs[p]);
    forall i | 0 <= i < |w.procs[p].chunks| ensures Rem(w.procs[p].chunks[i].size, PAGE_SIZE) == 0 {
      assert w.procs[p].chunks[i] == Grower(w)[i];
    }
  }

  lemma StepGrowsProc(w: World, l: Label, p: nat)
    requires Enabled(w, l) && p in w.procs
    ensures p in Act(w, l).procs && ProcGrows(w.procs[p], Act(w, l).procs[p])
  {
  }

  /** A process never loses or moves a mapped chunk. */
  lemma {:induction false} MappedForGood(run: seq<World>, labels: seq<Label>, j: nat, k: nat, p: nat)
    requires GrowthProtocol.IsRun(run, labels) && j <= k < |run| && p in run[j].procs
    ensures p in run[k].procs && ProcGrows(run[j].procs[p], run[k].procs[p])
  {
    if j < k {
      MappedForGood(run, labels, j, k - 1, p);
      assert StepsAt(run, labels, k - 1);
      StepGrowsProc(run[k - 1], labels[k - 1], p);
    }
  }

  /** A process's list, later in the run. */
  lemma ListGrows(run: seq<World>, labels: seq<Label>, j: nat, k: nat, p: nat)
    requires GrowthProtocol.IsRun(run, labels) && j <= k < |run| && p in run[j].procs
    ensures p in run[k].procs && ProcGrows(run[j].procs[p], run[k].procs[p])
    ensures ShmOk(run[k].procs[p]) && TotalSize(run[k].procs[p].chunks) <= ADDRESS_SPACE
  {
    MappedForGood(run, labels, j, k, p);
    RunKeepsInv(run, labels, k);
    ListDecodes(run[k], p);
  }

  lemma ChunkAtStays(cs: seq<Chunk>, ds: seq<Chunk>, off: nat)
    requires Tiles(cs) && Tiles(ds) && cs <= ds && off < TotalSize(cs)
    ensures off < TotalSize(ds) && ChunkAt(ds, off, 0) == ChunkAt(cs, off, 0) < |cs|
  {
    var k := ChunkAt(cs, off, 0);
    FoundIffBelowTotal(cs, off);
    assert ds[k] == cs[k];
    ChunkAtUnique(ds, k, off);
    FoundIffBelowTotal(ds, off);
  }

  /** A mapped offset keeps its image when the list grows. */
  lemma ImageStays(p: Proc, q: Proc, off: nat)
    requires ShmOk(p) && ShmOk(q) && ProcGrows(p, q) && off < TotalSize(p.chunks)
    ensures off < TotalSize(q.chunks) && Image(q, off) == Image(p, off)
  {
    ChunkAtStays(p.chunks, q.chunks, off);
  }

  /** What one process stores, another decodes to its own image of the target, except past the sentinel. */
  lemma StoredDecodes(ma: Memory, mb: Memory, later: Proc, f: Word, t: Word)
    requires MemoryOk(ma) && MemoryOk(mb) && ShmOk(later) && ProcGrows(mb.shm, later)
    requires f < TotalSize(ma.shm.chunks) && t < TotalSize(ma.shm.chunks)
    requires f < TotalSize(mb.shm.chunks) && t < TotalSize(later.chunks)
    ensures GoodHome(ma, Image(ma.shm, f)) && GoodHome(mb, Image(mb.shm, f))
    ensures var stored := Set(ma, Image(ma.shm, f), Image(ma.shm, t));
            stored.Encoded? && (Get(mb, later, Image(mb.shm, f), stored.offset) == Image(later, t) <==> t != f + 1)
  {
    EncodesDistance(ma, f, t);
    FindImage(mb, f);
    SumIsDistance(f, Sub(t, f), t);
    TotalFits(ma.shm);
    if Sub(t, f) != NULL_OFFSET {
      DecodesDistance(mb, later, f, t, Sub(t, f));
    } else {
      ImageNotNull(later, t);
    }
  }

  /** Position independence in every run: what process a stores at file offset f for target offset t
      (state i) decodes in process b, which has f mapped (state j) and t mapped at once or after
      discovery (state k), to b's own image of t. The one exception is t = f + 1, whose offset is the
      null sentinel. */
  lemma PositionIndependent(run: seq<World>, labels: seq<Label>, i: nat, j: nat, k: nat,
                            a: nat, b: nat, ma: Memory, mb: Memory, f: nat, t: nat)
    requires GrowthProtocol.IsRun(run, labels) && i < |run| && j <= k < |run|
    requires a in run[i].procs && MemoryOk(ma) && ma.shm == run[i].procs[a]
    requires b in run[j].procs && MemoryOk(mb) && mb.shm == run[j].procs[b] && b in run[k].procs
    requires f < TotalSize(run[i].procs[a].chunks) && t < TotalSize(run[i].procs[a].chunks)
    requires f < TotalSize(run[j].procs[b].chunks) && t < TotalSize(run[k].procs[b].chunks)
    ensures ShmOk(run[k].procs[b]) && GoodHome(ma, Image(ma.shm, f)) && GoodHome(mb, Image(mb.shm, f))
    ensures var stored := Set(ma, Image(ma.shm, f), Image(ma.shm, t));
            && stored.Encoded?
            && (Get(mb, run[k].procs[b], Image(mb.shm, f), stored.offset) == Image(run[k].procs[b], t) <==> t != f + 1)
  {
    ListGrows(run, labels, i, i, a);
    ListGrows(run, labels, j, k, b);
    StoredDecodes(ma, mb, run[k].procs[b], f, t);
  }

  // ---- with stale lookups on either side ----

  /** What a process stores for target t in an object at f: the distance in the file if it knows the object's
      chunk, the distance in its own memory after a stale hit. */
  function Distance(p: Proc, place: Place, f: nat, t: nat): Word
    requires ShmOk(p) && f < TotalSize(p.chunks) && t < TotalSize(p.chunks) && f < WORD && t < WORD
  {
    if place.Unmanaged? then Sub(Image(p, t), Image(p, f)) else Sub(t, f)
  }

  /** The two ways of counting agree exactly when the chunks of f and t are in line in that process. */
  lemma DistancesAgree(p: Proc, f: Word, t: Word)
    requires ShmOk(p) && f < TotalSize(p.chunks) && t < TotalSize(p.chunks)
    ensures Sub(Image(p, t), Image(p, f)) == Sub(t, f) <==> OffsetsInLine(p, f, t)
  {
    TotalFits(p);
  }

  lemma StoresDistance(m: Memory, home: Place, there: Place, f: Word, t: Word)
    requires MemoryOk(m) && f < TotalSize(m.shm.chunks) && t < TotalSize(m.shm.chunks)
    requires GoodHome(m, Image(m.shm, f)) && MayFind(m, Image(m.shm, f), home) && MayFind(m, Image(m.shm, t), there)
    ensures SetAt(m, home, there, Image(m.shm, f), Image(m.shm, t))
         == if home.Shared? && there.Unmanaged? then Threw else Encoded(Distance(m.shm, home, f, t))
  {
    FindImage(m, f);
    FindImage(m, t);
  }

  lemma ImageInjective(p: Proc, x: nat, y: nat)
    requires ShmOk(p) && x < TotalSize(p.chunks) && y < TotalSize(p.chunks) && Image(p, x) == Image(p, y)
    ensures x == y
  {
    FindSharedUnique(p, ChunkAt(p.chunks, x, 0), Image(p, x));
    FindSharedUnique(p, ChunkAt(p.chunks, y, 0), Image(p, y));
  }

  lemma ImageNotNull(p: Proc, x: nat)
    requires ShmOk(p) && x < TotalSize(p.chunks)
    ensures Image(p, x) != 0
  {
  }

  lemma SumIsDistance(a: Word, d: Word, b: Word)
    ensures Add(a, d) == b <==> d == Sub(b, a)
  {
  }

  /** Decoding in any process, from its list as it is or as it is after discovery, gives that process's image of
      the offset t exactly when the stored word is the distance from f to t. */
  lemma DecodesDistance(m: Memory, later: Proc, f: Word, t: Word, d: Word)
    requires MemoryOk(m) && ShmOk(later) && ProcGrows(m.shm, later)
    requires f < TotalSize(m.shm.chunks) && t < TotalSize(later.chunks) && d != NULL_OFFSET
    ensures GoodHome(m, Image(m.shm, f))
    ensures Get(m, later, Image(m.shm, f), d) == Image(later, t) <==> Add(f, d) == t
  {
    var off := Add(f, d);
    FindImage(m, f);
    OffsetOfImage(m.shm, f);
    ImageNotNull(later, t);
    ResolveIsImage(later, off);
    if ChunkAt(m.shm.chunks, off, 0) < |m.shm.chunks| {
      ResolveLonger(m.shm, later, off);
    }
    if off < TotalSize(later.chunks) && Image(later, off) == Image(later, t) {
      ImageInjective(later, off, t);
    }
  }

  lemma ReadsDistance(m: Memory, later: Proc, seen: Place, f: Word, t: Word, d: Word)
    requires MemoryOk(m) && ShmOk(later) && ProcGrows(m.shm, later) && d != NULL_OFFSET
    requires f < TotalSize(m.shm.chunks) && f < TotalSize(later.chunks) && t < TotalSize(later.chunks)
    requires GoodHome(m, Image(m.shm, f)) && MayFind(m, Image(m.shm, f), seen)
    ensures GetAt(m, later, seen, Image(m.shm, f), d) == Image(later, t) <==> d == Distance(later, seen, f, t)
  {
    FindImage(m, f);
    if seen.Unmanaged? {
      ImageStays(m.shm, later, f);
      SumIsDistance(Image(m.shm, f), d, Image(later, t));
    } else {
      DecodesDistance(m, later, f, t, d);
      SumIsDistance(f, d, t);
    }
  }

  lemma StoredReadsIff(m: Memory, later: Proc, seen: Place, f: Word, t: Word, d: Word)
    requires MemoryOk(m) && ShmOk(later) && ProcGrows(m.shm, later)
    requires f < TotalSize(m.shm.chunks) && f < TotalSize(later.chunks) && t < TotalSize(later.chunks)
    requires GoodHome(m, Image(m.shm, f)) && MayFind(m, Image(m.shm, f), seen)
    ensures GetAt(m, later, seen, Image(m.shm, f), d) == Image(later, t)
       <==> NULL_OFFSET != d == Distance(later, seen, f, t)
  {
    ImageNotNull(later, t);
    if d != NULL_OFFSET {
      ReadsDistance(m, later, seen, f, t, d);
    }
  }

  lemma StoredThenRead(ma: Memory, mb: Memory, later: Proc, home: Place, there: Place, seen: Place, f: Word, t: Word)
    requires MemoryOk(ma) && f < TotalSize(ma.shm.chunks) && t < TotalSize(ma.shm.chunks)
    requires MemoryOk(mb) && ShmOk(later) && ProcGrows(mb.shm, later)
    requires f < TotalSize(mb.shm.chunks) && t < TotalSize(later.chunks)
    requires CanSet(ma, home, there, Image(ma.shm, f), Image(ma.shm, t)) && (home.Shared? ==> there.Shared?)
    requires GoodHome(mb, Image(mb.shm, f)) && MayFind(mb, Image(mb.shm, f), seen)
    ensures f < TotalSize(later.chunks)
    ensures var stored := SetAt(ma, home, there, Image(ma.shm, f), Image(ma.shm, t));
            && stored.Encoded?
            && (GetAt(mb, later, seen, Image(mb.shm, f), stored.offset) == Image(later, t)
                <==> NULL_OFFSET != Distance(ma.shm, home, f, t) == Distance(later, seen, f, t))
  {
    ImageStays(mb.shm, later, f);
    StoresDistance(ma, home, there, f, t);
    StoredReadsIff(mb, later, seen, f, t, Distance(ma.shm, home, f, t));
  }

  /** In every run and whatever lookups are stale, in the writing process a or in the reading process b: what is
      stored is read as b's own image of t exactly when both count the same distance and it is not the sentinel. */
  lemma PositionIndependentIff(run: seq<World>, labels: seq<Label>, i: nat, j: nat, k: nat, a: nat, b: nat, ma: Memory,
                               mb: Memory, later: Proc, home: Place, there: Place, seen: Place, f: Word, t: Word)
    requires GrowthProtocol.IsRun(run, labels) && i < |run| && j <= k < |run|
    requires a in run[i].procs && MemoryOk(ma) && ma.shm == run[i].procs[a]
    requires b in run[j].procs && MemoryOk(mb) && mb.shm == run[j].procs[b]
    requires b in run[k].procs && later == run[k].procs[b]
    requires f < TotalSize(ma.shm.chunks) && t < TotalSize(ma.shm.chunks)
    requires f < TotalSize(mb.shm.chunks) && t < TotalSize(later.chunks)
    requires CanSet(ma, home, there, Image(ma.shm, f), Image(ma.shm, t)) && (home.Shared? ==> there.Shared?)
    requires GoodHome(mb, Image(mb.shm, f)) && MayFind(mb, Image(mb.shm, f), seen)
    ensures ShmOk(later) && f < TotalSize(later.chunks)
    ensures var stored := SetAt(ma, home, there, Image(ma.shm, f), Image(ma.shm, t));
            && stored.Encoded?
            && (GetAt(mb, later, seen, Image(mb.shm, f), stored.offset) == Image(later, t)
                <==> NULL_OFFSET != Distance(ma.shm, home, f, t) == Distance(later, seen, f, t))
  {
    ListGrows(run, labels, j, k, b);
    StoredThenRead(ma, mb, later, home, there, seen, f, t);
  }

  // ---- discovery finds what was published ----

  /** Inside one call of lazy_discover_growth(off) that will see at least n published chunks. */
  predicate InDiscovery(pc: Pc, off: nat, n: nat, mine: nat) {
    match pc
    case Checking(o) => o == off
    case Discovering(o, i, count, _) => o == off && count >= n && i == mine
    case Discovered(o, _) => o == off
    case _ => false
  }

  lemma DiscoveryProceeds(w: World, l: Label, id: Tid, off: nat, n: nat)
    requires Inv(w) && Enabled(w, l) && n <= w.count
    requires InDiscovery(PcOf(w, id), off, n, |ProcOf(w, id.proc).chunks|) && !PcOf(Act(w, l), id).Idle?
    requires PcOf(w, id).Discovered? ==> l.id != id
    ensures InDiscovery(PcOf(Act(w, l), id), off, n, |ProcOf(Act(w, l), id.proc).chunks|)
    ensures l.id == id && PcOf(w, id).Discovering? && PcOf(Act(w, l), id).Discovered? ==>
              |ProcOf(w, id.proc).chunks| >= n
  {
    OwnPcOk(w, id);
    OwnPcOk(w, l.id);
    if l.id != id {
      OtherList(w, l, id.proc);
    }
  }

  /** The call saw the n chunks published when it took the lock, or had them all along. */
  ghost predicate SeesPublished(w: World, id: Tid, off: nat, n: nat) {
    && n <= w.count && InDiscovery(PcOf(w, id), off, n, |ProcOf(w, id.proc).chunks|)
    && (PcOf(w, id).Discovered? ==> PcOf(w, id).result || |ProcOf(w, id.proc).chunks| >= n)
  }

  lemma MappedStep(w: World, l: Label, p: nat)
    requires Enabled(w, l)
    ensures |ProcOf(w, p).chunks| <= |ProcOf(Act(w, l), p).chunks|
  {
    if p in w.procs {
      StepGrowsProc(w, l, p);
    }
  }

  lemma SeesPublishedStep(w: World, l: Label, id: Tid, off: nat, n: nat)
    requires Inv(w) && Enabled(w, l) && SeesPublished(w, id, off, n) && !PcOf(Act(w, l), id).Idle?
    ensures SeesPublished(Act(w, l), id, off, n)
  {
    OwnPcOk(w, l.id);
    DiscoveryProceeds(w, l, id, off, n);
    CountGrows(w, l);
    MappedStep(w, l, id.proc);
  }

  lemma RunSeesPublished(run: seq<World>, labels: seq<Label>, j: nat, id: Tid, off: nat, n: nat)
    requires GrowthProtocol.IsRun(run, labels) && j < |labels|
    requires SeesPublished(run[j], id, off, n) && !PcOf(run[j + 1], id).Idle?
    ensures SeesPublished(run[j + 1], id, off, n)
  {
    RunKeepsInv(run, labels, j);
    assert StepsAt(run, labels, j);
    SeesPublishedStep(run[j], labels[j], id, off, n);
  }

  /** The whole call: from the state where it holds the lock until it is about to return. */
  lemma {:induction false} DiscoveryTracks(run: seq<World>, labels: seq<Label>, i: nat, j: nat, id: Tid, off: nat)
    requires GrowthProtocol.IsRun(run, labels) && i <= j < |run| && PcOf(run[i], id) == Checking(off)
    requires forall x :: i <= x <= j ==> !PcOf(run[x], id).Idle?
    ensures SeesPublished(run[j], id, off, run[i].count)
  {
    if i < j {
      DiscoveryTracks(run, labels, i, j - 1, id, off);
      RunSeesPublished(run, labels, j - 1, id, off, run[i].count);
    }
  }

  /** A list that reaches as far as an earlier published table covers whatever that table covered. */
  lemma LongerListCovers(w: World, p: nat, earlier: seq<Chunk>, off: nat)
    requires Inv(w) && p in w.procs && p != 0 && earlier <= Published(w) && off < TotalSize(earlier)
    requires |w.procs[p].chunks| >= |earlier|
    ensures off < TotalSize(w.procs[p].chunks)
  {
    var cs, n := w.procs[p].chunks, |earlier|;
    ListTiles(w, p);
    assert cs[..n] == earlier;
    TotalMonotone(cs, n, |cs|);
    assert cs[..|cs|] == cs;
  }

  /** An offset that was published when a call of lazy_discover_growth took the lock is covered when
      the call returns, unless a mapping fails: the call answers true. */
  lemma DiscoverySucceeds(run: seq<World>, labels: seq<Label>, i: nat, j: nat, id: Tid, off: nat)
    requires GrowthProtocol.IsRun(run, labels) && i <= j < |run| && id.proc != 0
    requires PcOf(run[i], id) == Checking(off) && off < TotalSize(Published(run[i]))
    requires forall x :: i <= x <= j ==> !PcOf(run[x], id).Idle?
    requires PcOf(run[j], id).Discovered?
    ensures PcOf(run[j], id).result
  {
    DiscoveryTracks(run, labels, i, j, id, off);
    PublishedForGood(run, labels, i, j);
    RunKeepsInv(run, labels, j);
    OwnPcOk(run[j], id);
    if !PcOf(run[j], id).result {
      LongerListCovers(run[j], id.proc, Published(run[i]), off);
    }
  }

  /** The whole of get() for a target that is not mapped yet: process b looks at its list (state j), calls
      lazy_discover_growth(t) (state c, when t is published) and, unless a mapping fails, comes back (state k)
      with its own image of t. */
  lemma DecodesAfterDiscovery(run: seq<World>, labels: seq<Label>, i: nat, j: nat, c: nat, k: nat,
                              a: nat, id: Tid, ma: Memory, mb: Memory, f: nat, t: nat)
    requires GrowthProtocol.IsRun(run, labels) && i < |run| && j <= c <= k < |run| && id.proc != 0
    requires a in run[i].procs && MemoryOk(ma) && ma.shm == run[i].procs[a]
    requires id.proc in run[j].procs && MemoryOk(mb) && mb.shm == run[j].procs[id.proc]
    requires f < TotalSize(ma.shm.chunks) && t < TotalSize(ma.shm.chunks) && f < TotalSize(mb.shm.chunks)
    requires PcOf(run[c], id) == Checking(t) && t < TotalSize(Published(run[c]))
    requires (forall x :: c <= x <= k ==> !PcOf(run[x], id).Idle?) && PcOf(run[k], id).Discovered?
    ensures id.proc in run[k].procs && ShmOk(run[k].procs[id.proc]) && t < TotalSize(run[k].procs[id.proc].chunks)
    ensures GoodHome(ma, Image(ma.shm, f)) && GoodHome(mb, Image(mb.shm, f))
    ensures var stored := Set(ma, Image(ma.shm, f), Image(ma.shm, t));
            && stored.Encoded?
            && (Get(mb, run[k].procs[id.proc], Image(mb.shm, f), stored.offset) == Image(run[k].procs[id.proc], t)
                <==> t != f + 1)
  {
    DiscoveryTracks(run, labels, c, k, id, t);
    DiscoverySucceeds(run, labels, c, k, id, t);
    MappedForGood(run, labels, j, k, id.proc);
    RunKeepsInv(run, labels, k);
    OwnPcOk(run[k], id);
    PositionIndependent(run, labels, i, j, k, a, id.proc, ma, mb, f, t);
  }
}
