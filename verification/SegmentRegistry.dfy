/** The plain list of segments that the registry stands for. */
module SegmentList {
  import opened Sequences
  import opened DivMod
  import opened Platform
  import opened Radix
  import opened AtomicMap
  import opened PageRange
  import opened SubSegment

  /** The segment's pages, rounded outwards, include this page. */
  predicate OnPage(x: Extent, page: nat) {
    PageWithin(page, x.base, x.size)
  }

  /** A linear scan for the segment that owns a page; null if there is none. */
  function LinearScan(segs: seq<nat>, descs: Descriptors, page: nat): nat {
    if segs == [] then 0
    else if segs[0] in descs && OnPage(descs[segs[0]], page) then segs[0]
    else LinearScan(segs[1..], descs, page)
  }

  /** Inside the address range the trie tells apart, and a page below the end of the 64-bit range. */
  predicate InRange(x: Extent) {
    PageEnd(x.base, x.size) <= KEYS && x.base + x.size + PAGE_SIZE <= WORD
  }

  predicate PagesDisjoint(x: Extent, y: Extent) {
    PageEnd(x.base, x.size) <= PageBegin(y.base) || PageEnd(y.base, y.size) <= PageBegin(x.base)
  }

  predicate Listed(descs: Descriptors, seg: nat) {
    seg != 0 && seg in descs && InRange(descs[seg])
  }

  ghost predicate ListOk(segs: seq<nat>, descs: Descriptors) {
    && (forall s :: s in segs ==> Listed(descs, s))
    && (forall s, t :: s in segs && t in segs && s != t ==> PagesDisjoint(descs[s], descs[t]))
  }

  /** In range, having a key and owning the page are the same. */
  lemma KeyIsPage(x: Extent, k: nat)
    requires InRange(x)
    ensures HasKey(x, k) <==> OnPage(x, k)
  {
    if HasKey(x, k) {
      var pg :| PageBegin(x.base) <= pg < PageEnd(x.base, x.size) && Key(pg) == k;
      KeyOfSmall(pg);
    }
    if OnPage(x, k) {
      KeyOfSmall(k);
    }
  }

  /** The mapping says what the list says, except that pages of the segments in `partial` may be missing: their
      registration ran out of memory. */
  ghost predicate Exact(m: map<nat, nat>, segs: seq<nat>, partial: set<nat>, descs: Descriptors)
    requires ListOk(segs, descs)
  {
    && (forall s :: s in partial ==> s in segs)
    && (forall s, k :: s in segs && s !in partial && OnPage(descs[s], k) ==> Get(m, k) == s)
    && (forall k {:trigger Get(m, k)} :: Get(m, k) != 0 ==> Get(m, k) in segs && OnPage(descs[Get(m, k)], k))
  }

  lemma {:induction false} ScanFinds(segs: seq<nat>, descs: Descriptors, page: nat)
    requires forall s :: s in segs ==> s != 0 && s in descs
    ensures var r := LinearScan(segs, descs, page);
            if r == 0 then forall s :: s in segs ==> !OnPage(descs[s], page)
            else r in segs && OnPage(descs[r], page)
  {
    if segs != [] {
      assert forall s :: s in segs[1..] ==> s in segs;
      ScanFinds(segs[1..], descs, page);
    }
  }

  /** The segment that owns a page is the one the scan finds. */
  lemma ScanIsOwner(segs: seq<nat>, descs: Descriptors, seg: nat, page: nat)
    requires ListOk(segs, descs) && seg in segs && OnPage(descs[seg], page)
    ensures LinearScan(segs, descs, page) == seg
  {
    ScanFinds(segs, descs, page);
  }

  /** The list's answer for a page or, if it is a segment whose registration is incomplete, perhaps nothing. */
  predicate Answers(seg: nat, segs: seq<nat>, partial: set<nat>, descs: Descriptors, page: nat) {
    var scan := LinearScan(segs, descs, page);
    seg == scan || (seg == 0 && scan in partial)
  }

  lemma ScanIsMapping(m: map<nat, nat>, segs: seq<nat>, partial: set<nat>, descs: Descriptors, page: nat)
    requires ListOk(segs, descs) && Exact(m, segs, partial, descs)
    ensures Answers(Get(m, page), segs, partial, descs, page)
    ensures partial == {} ==> LinearScan(segs, descs, page) == Get(m, page)
  {
    ScanFinds(segs, descs, page);
    if Get(m, page) != 0 {
      ScanIsOwner(segs, descs, Get(m, page), page);
    }
  }

  /** A page number beyond the trie's range is looked up modulo that range, so the answer is the
      list's answer exactly when the page is in range or its residue is unowned. */
  lemma AliasExact(segs: seq<nat>, descs: Descriptors, page: nat)
    requires ListOk(segs, descs)
    ensures LinearScan(segs, descs, Key(page)) == LinearScan(segs, descs, page)
       <==> page < KEYS || LinearScan(segs, descs, Key(page)) == 0
  {
    ScanFinds(segs, descs, page);
    ScanFinds(segs, descs, Key(page));
    if page < KEYS {
      KeyOfSmall(page);
    }
  }

  /** It does differ: with a single registered page, the page as far behind it as the trie has keys is answered
      with the same segment. */
  lemma FarPageAnswered(seg: nat) returns (segs: seq<nat>, descs: Descriptors, page: nat)
    requires seg != 0
    ensures ListOk(segs, descs) && LinearScan(segs, descs, page) == 0 && LinearScan(segs, descs, Key(page)) == seg
  {
    segs, descs, page := [seg], map[seg := SECOND_PAGE], KEYS + 1;
    SecondPage();
    PageSizeBound();
    Pow2Monotone(1, Bits(LEVELS));
    Unique(page, KEYS, 1, 1);
    assert segs[1..] == [];
  }

  lemma BaseIsOnPage(x: Extent)
    requires InRange(x) && x.size > 0
    ensures OnPage(x, Key(PageOf(x.base)))
  {
    ByteHasKey(x, x.base);
    KeyIsPage(x, Key(PageOf(x.base)));
  }

  /** After a registration, complete or not. */
  lemma AfterInsert(m: map<nat, nat>, m': map<nat, nat>, segs: seq<nat>, partial: set<nat>, descs: Descriptors,
                    seg: nat, complete: bool)
    requires ListOk(segs, descs) && Exact(m, segs, partial, descs) && Listed(descs, seg) && seg !in segs
    requires forall s :: s in segs ==> PagesDisjoint(descs[s], descs[seg]) && PagesDisjoint(descs[seg], descs[s])
    requires OnlySet(m, m', PageBegin(descs[seg].base), PageEnd(descs[seg].base, descs[seg].size), seg)
    requires complete ==> RangeSet(m, m', PageBegin(descs[seg].base), PageEnd(descs[seg].base, descs[seg].size), seg)
    ensures ListOk(segs + [seg], descs)
    ensures Exact(m', segs + [seg], if complete then partial else partial + {seg}, descs)
  {
    forall k: nat
      ensures Get(m', k) == Get(m, k) || (OnPage(descs[seg], k) && Get(m', k) == seg)
      ensures complete && OnPage(descs[seg], k) ==> Get(m', k) == seg
    {
      KeyIsPage(descs[seg], k);
    }
  }

  lemma AfterRemove(m: map<nat, nat>, m': map<nat, nat>, segs: seq<nat>, partial: set<nat>, descs: Descriptors,
                    seg: nat)
    requires ListOk(segs, descs) && Exact(m, segs, partial, descs) && seg in segs
    requires RangeSet(m, m', PageBegin(descs[seg].base), PageEnd(descs[seg].base, descs[seg].size), 0)
    ensures ListOk(Without(segs, seg), descs) && Exact(m', Without(segs, seg), partial - {seg}, descs)
  {
    forall k: nat ensures Get(m', k) == if OnPage(descs[seg], k) then 0 else Get(m, k) {
      KeyIsPage(descs[seg], k);
    }
  }
}

/** segment_registry as one thread uses it: the concrete trie behind the concrete cache. */
module SegmentRegistry {
  import opened Platform
  import opened Radix
  import opened AtomicMap
  import opened TrieHeap
  import opened NcritTrie
  import opened PageRange
  import opened SubSegment
  import opened SegmentList
  import opened Sequences
  import opened TlsCache

  /** A cached entry that a listed segment's own slot vouches for. */
  ghost predicate Vouched(t: Tree, segs: seq<nat>, descs: Descriptors, e: Entry<Slot>) {
    e.Used? ==>
      && e.seg in segs && e.seg in descs
      && (exists pg {:trigger LeafPath(pg)} :: LeafPath(pg) in t.at && e.leaf == LeafSlot(t, pg)
                                               && Get(Contents(t), Key(pg)) == e.seg)
      && (forall a :: e.base <= a < e.end ==> OnPage(descs[e.seg], Key(PageOf(a))))
  }

  ghost predicate AllVouched(t: Tree, segs: seq<nat>, descs: Descriptors, es: seq<Entry<Slot>>) {
    forall i :: 0 <= i < |es| ==> Vouched(t, segs, descs, es[i])
  }

  lemma MoveKeepsVouched(t: Tree, segs: seq<nat>, descs: Descriptors, es: seq<Entry<Slot>>, i: nat)
    requires AllVouched(t, segs, descs, es) && i < |es|
    ensures AllVouched(t, segs, descs, MoveToFront(es, i))
    ensures Vouched(t, segs, descs, es[i])
  {
    forall j | 0 <= j < |es| ensures Vouched(t, segs, descs, MoveToFront(es, i)[j]) {
      var k := if j == 0 then i else if j <= i then j - 1 else j;
      assert MoveToFront(es, i)[j] == es[k];
    }
  }

  lemma PushKeepsVouched(t: Tree, segs: seq<nat>, descs: Descriptors, es: seq<Entry<Slot>>, e: Entry<Slot>)
    requires AllVouched(t, segs, descs, es) && |es| > 0 && Vouched(t, segs, descs, e)
    ensures AllVouched(t, segs, descs, Push(es, e))
  {
    forall j | 0 <= j < |es| ensures Vouched(t, segs, descs, Push(es, e)[j]) {
      assert j > 0 ==> Push(es, e)[j] == es[j - 1];
    }
  }

  /** The slot of a vouched entry holds the entry's segment. */
  lemma VouchedIsFresh(t: Tree, segs: seq<nat>, descs: Descriptors, e: Entry<Slot>)
    requires WellFormed(t) && e.Used? && Vouched(t, segs, descs, e)
    ensures Load(t.nodes, e.leaf) == Tag(e.seg)
  {
    var pg :| LeafPath(pg) in t.at && e.leaf == LeafSlot(t, pg) && Get(Contents(t), Key(pg)) == e.seg;
    RawIsLeafWord(t, pg);
    ContentsAt(t, pg);
  }

  lemma PageEntryVouched(t: Tree, segs: seq<nat>, partial: set<nat>, descs: Descriptors, addr: nat, seg: nat)
    requires WellFormed(t) && ListOk(segs, descs) && Exact(Contents(t), segs, partial, descs)
    requires seg == Get(Contents(t), Key(PageOf(addr))) != 0 && LeafPath(PageOf(addr)) in t.at
    ensures Vouched(t, segs, descs, Used(PageBase(addr), PageBase(addr) + PAGE_SIZE,
                                         seg, LeafSlot(t, PageOf(addr))))
  {
    forall a | PageBase(addr) <= a < PageBase(addr) + PAGE_SIZE ensures PageOf(a) == PageOf(addr) {
      PageSpan(addr, a);
    }
  }

  lemma WidenVouched(t: Tree, segs: seq<nat>, descs: Descriptors, es: seq<Entry<Slot>>, seg: nat)
    requires |es| > 0 && AllVouched(t, segs, descs, es) && ListOk(segs, descs) && seg in segs
    ensures AllVouched(t, segs, descs, Widen(es, descs[seg].base, descs[seg].size, seg))
  {
    var x := descs[seg];
    var es' := Widen(es, x.base, x.size, seg);
    forall a | x.base <= a < x.base + x.size ensures OnPage(x, Key(PageOf(a))) {
      ByteHasKey(x, a);
      KeyIsPage(x, Key(PageOf(a)));
    }
    assert Vouched(t, segs, descs, es[0]);
    forall i | 0 <= i < |es'| ensures Vouched(t, segs, descs, es'[i]) {
      assert i > 0 ==> es'[i] == es[i] && Vouched(t, segs, descs, es[i]);
    }
  }

  /** The top entry is the whole segment, so every address inside it is answered without the trie. */
  predicate Warm(es: seq<Entry<Slot>>, x: Extent, seg: nat) {
    |es| > 0 && es[0].Used? && es[0].seg == seg && es[0].base == x.base && es[0].end == x.base + x.size
  }

  class Registry {
    const trie: Trie
    const cache: Cache<Slot>
    const descs: Descriptors
    ghost var segs: seq<nat>
    ghost var partial: set<nat>  // those whose registration ran out of memory

    /** The trie and the cache are set up, whatever they hold. */
    ghost predicate Wired()
      reads this, trie
    {
      trie.Valid() && cache.Valid()
    }

    /** The trie holds the listed segments, completely or in part, and every cached entry is vouched for. */
    ghost predicate Valid()
      reads this, trie, cache, cache.entries
    {
      && Wired() && ListOk(segs, descs) && Exact(trie.mapping, segs, partial, descs)
      && AllVouched(trie.Shape(), segs, descs, cache.entries[..])
    }

    constructor (root: Addr, descs: Descriptors)
      requires Aligned(root)
      ensures Valid() && segs == [] && partial == {} && this.descs == descs && trie.refused == 0
      ensures fresh(trie) && fresh(cache) && fresh(cache.entries)
    {
      trie := new Trie(root);
      cache := new Cache<Slot>();
      this.descs := descs;
      segs := [];
      partial := {};
    }

    /** The cached lookup, for any cache: the first covering entry decides; it is moved to the
        front if its slot still holds its segment and evicted, with a null answer, if not. */
    method LookupImpl(addr: nat) returns (seg: nat)
      requires Wired()
      modifies cache.entries
      ensures Wired()
      ensures var es, es' := old(cache.entries[..]), cache.entries[..];
              var i := FirstCover(es, addr, 0);
              if i < |es| then
                if Load(trie.nodes, es[i].leaf) == Tag(es[i].seg) then seg == es[i].seg && es' == MoveToFront(es, i)
                else seg == 0 && es' == Evict(es, i)
              else
                && seg == Get(trie.mapping, Key(PageOf(addr)))
                && (seg == 0 ==> es' == es)
                && (seg != 0 ==>
                      && LeafPath(PageOf(addr)) in trie.at
                      && es' == Push(es, Used(PageBase(addr), PageBase(addr) + PAGE_SIZE,
                                              seg, LeafSlot(trie.Shape(), PageOf(addr)))))
    {
      var i := cache.FindCovering(addr);
      if i < CACHE_SIZE {
        var e := cache.entries[i];
        if Load(trie.nodes, e.leaf) == Tag(e.seg) {
          cache.ToFront(i);
          return e.seg;
        } else {
          cache.Drop(i);
          return 0;
        }
      }
      var leaf;
      seg, leaf := trie.LookupPageWithSlot(PageOf(addr));
      if seg != 0 {
        var base := PageBase(addr);
        cache.Insert(Used(base, base + PAGE_SIZE, seg, leaf));
      }
    }

    /** In a valid registry a lookup answers with the list and keeps every entry vouched for. */
    method Lookup(addr: nat) returns (seg: nat)
      requires Valid()
      modifies cache.entries
      ensures Valid() && Answers(seg, segs, partial, descs, Key(PageOf(addr)))
      ensures seg != 0 ==> seg in segs && cache.entries[0].Used? && cache.entries[0].seg == seg
    {
      ghost var es := cache.entries[..];
      ghost var i := FirstCover(es, addr, 0);
      seg := LookupImpl(addr);
      if i < |es| {
        MoveKeepsVouched(trie.Shape(), segs, descs, es, i);
        VouchedIsFresh(trie.Shape(), segs, descs, es[i]);
        ScanIsOwner(segs, descs, seg, Key(PageOf(addr)));
      } else {
        ScanIsMapping(trie.mapping, segs, partial, descs, Key(PageOf(addr)));
        if seg != 0 {
          PageEntryVouched(trie.Shape(), segs, partial, descs, addr, seg);
          PushKeepsVouched(trie.Shape(), segs, descs, es, cache.entries[0]);
        }
      }
    }

    /** Widening the top entry keeps it vouched for. */
    method Expand(seg: nat)
      requires Valid() && seg in segs
      modifies cache.entries
      ensures Valid() && cache.entries[..] == Widen(old(cache.entries[..]), descs[seg].base, descs[seg].size, seg)
    {
      ghost var es := cache.entries[..];
      cache.ExpandTop(descs[seg].base, descs[seg].size, seg);
      WidenVouched(trie.Shape(), segs, descs, es, seg);
    }

    /** find(addr) is a linear scan of the registered segments for the page of addr, through all
        cache shifts, move-to-front steps and widening. Only for a segment whose registration ran out of
        memory it may answer null instead. What it finds is cached as a whole. */
    method Find(addr: nat) returns (seg: nat)
      requires Valid()
      modifies cache.entries
      ensures Valid() && Answers(seg, segs, partial, descs, Key(PageOf(addr)))
      ensures PageOf(addr) < KEYS ==> Answers(seg, segs, partial, descs, PageOf(addr))
      ensures seg != 0 ==> seg in segs && Warm(cache.entries[..], descs[seg], seg)
    {
      seg := Lookup(addr);
      AliasExact(segs, descs, PageOf(addr));
      if seg != 0 {
        Expand(seg);
      }
    }

    /** The end of register_segment: a lookup of the base address on the emptied cache, then
        widening. What it caches is vouched for by any list the trie now stands for. */
    method WarmUp(seg: nat, ghost now: seq<nat>, ghost part: set<nat>)
      requires Wired() && seg in descs && cache.entries[..] == AllVacant()
      modifies cache.entries
      ensures Wired()
      ensures ListOk(now, descs) && Exact(trie.mapping, now, part, descs) && seg in now ==>
                AllVouched(trie.Shape(), now, descs, cache.entries[..])
      ensures Get(trie.mapping, Key(PageOf(descs[seg].base))) == seg != 0 ==> Warm(cache.entries[..], descs[seg], seg)
    {
      var x := descs[seg];
      var found := LookupImpl(x.base);
      ghost var es := cache.entries[..];
      cache.ExpandTop(x.base, x.size, seg);
      if ListOk(now, descs) && Exact(trie.mapping, now, part, descs) && seg in now {
        if found != 0 {
          PageEntryVouched(trie.Shape(), now, part, descs, x.base, found);
          PushKeepsVouched(trie.Shape(), now, descs, AllVacant(), es[0]);
        }
        assert AllVouched(trie.Shape(), now, descs, es);
        WidenVouched(trie.Shape(), now, descs, es, seg);
      }
    }

    /** Adds a segment whose pages no listed segment owns. If the trie ran out of memory the registration is
        incomplete: then only pages of the segment may have changed, and only to it. Otherwise the whole segment is
        cached. */
    method RegisterSegment(seg: nat) returns (complete: bool)
      requires Valid() && Aligned(seg) && Listed(descs, seg) && seg !in segs
      requires forall s :: s in segs ==> PagesDisjoint(descs[s], descs[seg]) && PagesDisjoint(descs[seg], descs[s])
      modifies this, trie, cache.entries
      ensures Valid() && segs == old(segs) + [seg]
      ensures partial == if complete then old(partial) else old(partial) + {seg}
      ensures trie.refused >= old(trie.refused) && (complete <==> trie.refused == old(trie.refused))
      ensures complete && descs[seg].size > 0 ==> Warm(cache.entries[..], descs[seg], seg)
      ensures OnlySet(old(trie.mapping), trie.mapping, PageBegin(descs[seg].base),
                      PageEnd(descs[seg].base, descs[seg].size), seg)
    {
      var x := descs[seg];
      WordPageEndWraps(x.base, x.size);
      ghost var missed;
      complete, missed := trie.InsertRange(x.base, x.size, seg);
      cache.Invalidate();
      AfterInsert(old(trie.mapping), trie.mapping, segs, partial, descs, seg, complete);
      segs := segs + [seg];
      partial := if complete then partial else partial + {seg};
      if complete && x.size > 0 {
        BaseIsOnPage(x);
      }
      WarmUp(seg, segs, partial);
    }

    /** Removes a segment; the list loses exactly that segment, and nothing stays cached. */
    method UnregisterSegment(seg: nat)
      requires Valid() && seg in segs
      modifies this, trie, cache.entries
      ensures Valid() && segs == Without(old(segs), seg) && partial == old(partial) - {seg}
      ensures cache.entries[..] == AllVacant() && trie.refused == old(trie.refused)
    {
      var x := descs[seg];
      WordPageEndWraps(x.base, x.size);
      trie.RemoveRange(x.base, x.size);
      cache.Invalidate();  // at the end of remove_range
      cache.Invalidate();  // and once more by the registry itself
      AfterRemove(old(trie.mapping), trie.mapping, segs, partial, descs, seg);
      segs := Without(segs, seg);
      partial := partial - {seg};
    }
  }
}
