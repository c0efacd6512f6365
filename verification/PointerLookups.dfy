/** What the registry answers to the pointer operations: the owner of the address or, after a stale hit, nothing. */
module PointerLookups {
  import opened Platform
  import opened Radix
  import opened SubSegment
  import opened SegmentList
  import opened CachedLookup
  import opened ConcurrentRegistry
  import opened RegistryRecovery
  import opened PointerEncoding
  import opened PointerLaws

  /** The descriptors of a process's chunks and of its other segments. */
  datatype Names = Names(shm: seq<nat>, others: seq<nat>)

  /** Segment `seg` is registered, with these bytes. */
  ghost predicate Registers(s: Registry, seg: nat, base: nat, size: nat) {
    seg != 0 && LifeOf(s, seg).Registered? && seg in s.desc && s.desc[seg] == Extent(base, size) && InRange(s.desc[seg])
  }

  /** The registry and the process's memory agree. Segments whose registration or removal is still under way are not
      part of the memory; none of them is on the page of `addr`. */
  ghost predicate Agrees(s: Registry, m: Memory, n: Names, addr: nat) {
    && |n.shm| == |m.shm.chunks| == |m.shm.bases| && |n.others| == |m.others|
    && (forall i :: 0 <= i < |n.shm| ==> Registers(s, n.shm[i], m.shm.bases[i], m.shm.chunks[i].size))
    && (forall j :: 0 <= j < |n.others| ==> Registers(s, n.others[j], m.others[j].base, m.others[j].size))
    && (forall seg :: seg in s.desc && Live(s, seg) && seg !in n.shm && seg !in n.others ==>
          !HasKey(s.desc[seg], Key(PageOf(addr))))
  }

  function IndexOf(segs: seq<nat>, seg: nat): (i: nat)
    ensures i <= |segs| && (i < |segs| <==> seg in segs)
    ensures i < |segs| ==> segs[i] == seg
  {
    if segs == [] || segs[0] == seg then 0 else 1 + IndexOf(segs[1..], seg)
  }

  /** The place a registry answer stands for. */
  function PlaceOf(n: Names, seg: nat): Place {
    if seg in n.shm then Shared(IndexOf(n.shm, seg))
    else if seg in n.others then Elsewhere(IndexOf(n.others, seg)) else Unmanaged
  }

  /** Owning the page of an address and having its key is the same for a registered segment. */
  lemma OwnsIsHasKey(s: Registry, seg: nat, base: nat, size: nat, addr: nat)
    requires Registers(s, seg, base, size) && PageOf(addr) < KEYS
    ensures Owns(base, size, addr) <==> HasKey(s.desc[seg], Key(PageOf(addr)))
  {
    KeyOfSmall(PageOf(addr));
    KeyIsPage(s.desc[seg], PageOf(addr));
  }

  /** The owner of an address has its key, and its name stands for its place. */
  lemma OwnerIsNamed(s: Registry, m: Memory, n: Names, addr: Word) returns (o: nat)
    requires Agrees(s, m, n, addr) && MemoryOk(m) && PageOf(addr) < KEYS && !PointerEncoding.Find(m, addr).Unmanaged?
    ensures LifeOf(s, o).Registered? && o in s.desc && HasKey(s.desc[o], Key(PageOf(addr)))
    ensures PlaceOf(n, o) == PointerEncoding.Find(m, addr)
  {
    match PointerEncoding.Find(m, addr)
    case Shared(i) =>
      o := n.shm[i];
      OwnsIsHasKey(s, o, m.shm.bases[i], m.shm.chunks[i].size, addr);
      var k := IndexOf(n.shm, o);
      OwnsIsHasKey(s, o, m.shm.bases[k], m.shm.chunks[k].size, addr);
      SharedInside(m.shm, i, addr);
      SharedInside(m.shm, k, addr);
      FindSharedUnique(m.shm, k, addr);
    case Elsewhere(j) =>
      o := n.others[j];
      OwnsIsHasKey(s, o, m.others[j].base, m.others[j].size, addr);
      if o in n.shm {
        var i := IndexOf(n.shm, o);
        OwnsIsHasKey(s, o, m.shm.bases[i], m.shm.chunks[i].size, addr);
        assert false;
      } else {
        var k := IndexOf(n.others, o);
        OwnsIsHasKey(s, o, m.others[k].base, m.others[k].size, addr);
        OthersUnique(m, j, k, addr);
      }
  }

  lemma OthersUnique(m: Memory, j: nat, k: nat, addr: nat)
    requires MemoryOk(m) && j < |m.others| && k < |m.others|
    requires Owns(m.others[j].base, m.others[j].size, addr) && Owns(m.others[k].base, m.others[k].size, addr)
    ensures j == k
  {
  }

  /** An address without owner is on no page of a live segment. */
  lemma NobodyOwns(s: Registry, m: Memory, n: Names, addr: Word, seg: nat)
    requires Agrees(s, m, n, addr) && MemoryOk(m) && PageOf(addr) < KEYS && PointerEncoding.Find(m, addr).Unmanaged?
    requires seg in s.desc && Live(s, seg)
    ensures !HasKey(s.desc[seg], Key(PageOf(addr)))
  {
    if seg in n.shm {
      var i := IndexOf(n.shm, seg);
      OwnsIsHasKey(s, seg, m.shm.bases[i], m.shm.chunks[i].size, addr);
    } else if seg in n.others {
      var j := IndexOf(n.others, seg);
      OwnsIsHasKey(s, seg, m.others[j].base, m.others[j].size, addr);
    }
  }

  /** In every clean run, what any thread's lookup of an address in the trie's range answers is the place of its
      owner, except after a stale hit, when it is nothing: what `SetAt` and `GetAt` assume. */
  lemma AnswersOwner(run: seq<Registry>, labels: seq<Label>, i: nat, t: nat, m: Memory, n: Names, addr: Word)
    requires ConcurrentRegistry.IsRun(run, labels) && i < |run| && run[i].clean
    requires MemoryOk(m) && Agrees(run[i], m, n, addr) && PageOf(addr) < KEYS
    ensures var es := ThreadOf(run[i], t).cache;
            var place := PlaceOf(n, FindAnswer(es, run[i].m, addr));
            && MayFind(m, addr, place)
            && place == if ProbeAt(es, run[i].m, addr).Stale? then Unmanaged else PointerEncoding.Find(m, addr)
  {
    if PointerEncoding.Find(m, addr).Unmanaged? {
      forall seg | seg in run[i].desc && Live(run[i], seg) ensures !HasKey(run[i].desc[seg], Key(PageOf(addr))) {
        NobodyOwns(run[i], m, n, addr, seg);
      }
      NobodyIsNull(run, labels, i, t, addr);
    } else {
      var o := OwnerIsNamed(run[i], m, n, addr);
      OwnerOrNull(run, labels, i, t, addr, o);
    }
  }

  /** A stale hit misdirects a pointer in a run: an object `d` bytes into an anonymous segment, in a thread that cached
      the segment's predecessor on that page, decodes `d` bytes too far. */
  lemma StaleHitMisdirectsInRun(former: nat, now: nat, t: nat, u: nat, d: nat, target: Word)
    returns (run: seq<Registry>, labels: seq<Label>, m: Memory, n: Names, self: Word)
    requires former != 0 && now != 0 && former != now && t != u && 0 < d < PAGE_SIZE
    requires target != 0 && target != PAGE_SIZE + 1
    ensures ConcurrentRegistry.IsRun(run, labels) && run[|run| - 1].clean
    ensures MemoryOk(m) && Agrees(run[|run| - 1], m, n, self)
    ensures GoodHome(m, self) && PointerEncoding.Find(m, self).Elsewhere? && Set(m, self, target).Encoded?
    ensures var pc := ThreadOf(run[|run| - 1], t).pc;
            && pc.Returning? && pc.addr == self && MayFind(m, self, PlaceOf(n, pc.answer))
            && GetAt(m, m.shm, PlaceOf(n, pc.answer), self, Set(m, self, target).offset) == Add(target, d)
  {
    PageSizeBound();
    SecondPage();
    Pow2Monotone(1, Bits(LEVELS));
    run, labels := StaleHitHidesSegment(former, now, t, u, PAGE_SIZE + d);
    m, self := StaleHitMisdirects(PAGE_SIZE, d, target);
    n := Names([], [now]);
    assert now in n.others;
  }
}
