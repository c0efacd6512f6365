/** What a sub_segment descriptor says about addresses. */
module SubSegment {
  import opened DivMod
  import opened Platform
  import opened Radix
  import opened PageRange

  /** A mapped byte range [base, base + size). */
  datatype Extent = Extent(base: nat, size: nat)

  /** Descriptors by address. Descriptors are never reused. */
  type Descriptors = map<nat, Extent>

  /** Some page of the range has this trie key. */
  ghost predicate HasKey(x: Extent, k: nat) {
    KeyInPages(k, PageBegin(x.base), PageEnd(x.base, x.size))
  }

  lemma ByteHasKey(x: Extent, a: nat)
    requires x.base <= a < x.base + x.size
    ensures HasKey(x, Key(PageOf(a)))
  {
    BytePageInRange(x.base, x.size, a);
  }

  /** The second page of memory, as a segment of its own. */
  const SECOND_PAGE := Extent(PAGE_SIZE, PAGE_SIZE)

  lemma SecondPage()
    ensures PageBegin(PAGE_SIZE) == 1 && PageEnd(PAGE_SIZE, PAGE_SIZE) == 2
    ensures PageOf(PAGE_SIZE) == 1 && PageBase(PAGE_SIZE) == PAGE_SIZE
  {
    Unique(PAGE_SIZE, PAGE_SIZE, 1, 0);
    Unique(PAGE_SIZE + PAGE_SIZE + PAGE_SIZE - 1, PAGE_SIZE, 2, PAGE_SIZE - 1);
  }
}

/** lookup_impl and segment_registry::find over a mapping: scan the thread's cache, validate the
    covering entry by re-reading its slot, otherwise ask the trie and cache the answer. A slot is
    named by its page key. */
module CachedLookup {
  import opened Platform
  import opened Radix
  import opened AtomicMap
  import opened SubSegment
  import opened TlsCache

  type Cached = seq<Entry<nat>>

  /** What the one shared read of a lookup tells the thread. */
  datatype Probe = Hit(i: nat) | Stale(i: nat) | Fetched(seg: nat)

  function ProbeAt(es: Cached, m: map<nat, nat>, addr: nat): Probe {
    var i := FirstCover(es, addr, 0);
    if i < |es| then
      if Get(m, es[i].leaf) == es[i].seg then Hit(i) else Stale(i)
    else Fetched(Get(m, Key(PageOf(addr))))
  }

  /** The segment a lookup returns; zero is the null pointer. A stale hit returns null. */
  function Answer(es: Cached, p: Probe): nat {
    match p
    case Hit(i) => if i < |es| && es[i].Used? then es[i].seg else 0
    case Stale(_) => 0
    case Fetched(seg) => seg
  }

  /** The entry cached after a trie traversal: just the page. */
  function PageEntry(addr: nat, seg: nat): Entry<nat> {
    var base := PageBase(addr);
    Used(base, base + PAGE_SIZE, seg, Key(PageOf(addr)))
  }

  /** It covers the addresses of that page and no others. */
  lemma PageEntryCovers(addr: nat, seg: nat, a: nat)
    ensures Covers(PageEntry(addr, seg), a) <==> PageOf(a) == PageOf(addr)
  {
    if Covers(PageEntry(addr, seg), a) {
      PageSpan(addr, a);
    }
    PageBaseBelow(addr);
    PageBaseBelow(a);
    DivMod.QuotRem(addr, PAGE_SIZE);
    DivMod.QuotRem(a, PAGE_SIZE);
  }

  /** What the thread then does to its own cache. */
  function Settle(es: Cached, addr: nat, p: Probe): Cached {
    match p
    case Hit(i) => if i < |es| then MoveToFront(es, i) else es
    case Stale(i) => if i < |es| then Evict(es, i) else es
    case Fetched(seg) => if seg != 0 && |es| > 0 then Push(es, PageEntry(addr, seg)) else es
  }

  /** The top entry is widened to the whole segment, if it belongs to the one found. */
  function WidenFound(desc: Descriptors, es: Cached, seg: nat): Cached {
    if seg != 0 && seg in desc && |es| > 0 then Widen(es, desc[seg].base, desc[seg].size, seg) else es
  }

  /** find() without interruption: a lookup, then the widening. */
  function FindCache(desc: Descriptors, es: Cached, m: map<nat, nat>, addr: nat): Cached {
    var p := ProbeAt(es, m, addr);
    WidenFound(desc, Settle(es, addr, p), Answer(es, p))
  }

  function FindAnswer(es: Cached, m: map<nat, nat>, addr: nat): nat {
    Answer(es, ProbeAt(es, m, addr))
  }

  // ---- what the caches and the mapping always satisfy ----

  /** A cached entry belongs to a described segment, is vouched for by one of that segment's
      slots, and spans only addresses on that segment's pages. It may be stale. */
  ghost predicate EntryOk(desc: Descriptors, e: Entry<nat>) {
    e.Used? ==>
      && e.seg != 0 && e.seg in desc && HasKey(desc[e.seg], e.leaf)
      && forall a :: e.base <= a < e.end ==> HasKey(desc[e.seg], Key(PageOf(a)))
  }

  ghost predicate CacheOk(desc: Descriptors, es: Cached) {
    |es| == CACHE_SIZE && forall i :: 0 <= i < |es| ==> EntryOk(desc, es[i])
  }

  /** Slots hold described segments, and only on their own pages. */
  ghost predicate MapOk(desc: Descriptors, m: map<nat, nat>) {
    forall k :: k in m ==> m[k] != 0 && m[k] in desc && HasKey(desc[m[k]], k)
  }

  /** Segment `seg` sits on all of its pages, or on none. */
  ghost predicate AllOrNothing(desc: Descriptors, m: map<nat, nat>, seg: nat) {
    seg in desc ==>
      || (forall k :: HasKey(desc[seg], k) ==> Get(m, k) == seg)
      || (forall k :: Get(m, k) != seg)
  }

  /** No registration or removal is half done. */
  ghost predicate FullyInserted(desc: Descriptors, m: map<nat, nat>) {
    forall seg {:trigger AllOrNothing(desc, m, seg)} :: seg != 0 ==> AllOrNothing(desc, m, seg)
  }

  lemma PageEntryOk(desc: Descriptors, m: map<nat, nat>, addr: nat)
    requires MapOk(desc, m) && Get(m, Key(PageOf(addr))) != 0
    ensures EntryOk(desc, PageEntry(addr, Get(m, Key(PageOf(addr)))))
    ensures Covers(PageEntry(addr, Get(m, Key(PageOf(addr)))), addr)
  {
    var e := PageEntry(addr, Get(m, Key(PageOf(addr))));
    PageBaseBelow(addr);
    forall a | e.base <= a < e.end ensures PageOf(a) == PageOf(addr) {
      PageSpan(addr, a);
    }
  }

  lemma WidenOk(desc: Descriptors, es: Cached, seg: nat)
    requires CacheOk(desc, es) && seg in desc
    ensures CacheOk(desc, Widen(es, desc[seg].base, desc[seg].size, seg))
  {
    var x := desc[seg];
    var es' := Widen(es, x.base, x.size, seg);
    forall a | x.base <= a < x.base + x.size ensures HasKey(x, Key(PageOf(a))) {
      ByteHasKey(x, a);
    }
    assert EntryOk(desc, es[0]);
    forall i | 0 <= i < |es'| ensures EntryOk(desc, es'[i]) {
      assert i > 0 ==> es'[i] == es[i];
    }
  }

  /** A lookup, whatever it finds, leaves a cache of good entries. */
  lemma SettleOk(desc: Descriptors, es: Cached, m: map<nat, nat>, addr: nat)
    requires CacheOk(desc, es) && MapOk(desc, m)
    ensures CacheOk(desc, Settle(es, addr, ProbeAt(es, m, addr)))
  {
    var p := ProbeAt(es, m, addr);
    if p.Fetched? && p.seg != 0 {
      PageEntryOk(desc, m, addr);
    }
  }

  lemma FindOk(desc: Descriptors, es: Cached, m: map<nat, nat>, addr: nat)
    requires CacheOk(desc, es) && MapOk(desc, m)
    ensures CacheOk(desc, FindCache(desc, es, m, addr))
  {
    var p := ProbeAt(es, m, addr);
    SettleOk(desc, es, m, addr);
    if Answer(es, p) in desc {
      WidenOk(desc, Settle(es, addr, p), Answer(es, p));
    }
  }

  /** One-sided soundness: a non-null answer is a segment that some slot holds at the moment of
      the read, and the address is on one of its pages. */
  lemma AnswerSound(desc: Descriptors, es: Cached, m: map<nat, nat>, addr: nat)
    requires CacheOk(desc, es) && MapOk(desc, m)
    ensures var seg := FindAnswer(es, m, addr);
            seg != 0 ==> seg in desc && HasKey(desc[seg], Key(PageOf(addr))) && exists k :: Get(m, k) == seg
  {
    var i := FirstCover(es, addr, 0);
    if i < |es| {
      assert EntryOk(desc, es[i]);
    }
  }

  // ---- recovery from stale entries ----

  /** The answer without a cache. */
  function Truth(m: map<nat, nat>, addr: nat): nat {
    Get(m, Key(PageOf(addr)))
  }

  /** With no change in progress, a cached answer differs from the trie's exactly when the first
      covering entry is stale while the page is mapped. */
  lemma DisagreesIffStale(desc: Descriptors, es: Cached, m: map<nat, nat>, addr: nat)
    requires CacheOk(desc, es) && MapOk(desc, m) && FullyInserted(desc, m)
    ensures FindAnswer(es, m, addr) != Truth(m, addr) <==> ProbeAt(es, m, addr).Stale? && Truth(m, addr) != 0
  {
    var i := FirstCover(es, addr, 0);
    if i < |es| && Get(m, es[i].leaf) == es[i].seg {
      assert EntryOk(desc, es[i]);
      assert AllOrNothing(desc, m, es[i].seg);
    }
  }

  /** How many of the next n calls of find(addr) disagree with the trie. */
  function Wrong(desc: Descriptors, es: Cached, m: map<nat, nat>, addr: nat, n: nat): nat
    decreases n
  {
    if n == 0 then 0
    else (if FindAnswer(es, m, addr) != Truth(m, addr) then 1 else 0)
         + Wrong(desc, FindCache(desc, es, m, addr), m, addr, n - 1)
  }

  /** An entry that would answer for the address with null. */
  predicate StaleFor(e: Entry<nat>, m: map<nat, nat>, addr: nat) {
    Covers(e, addr) && Get(m, e.leaf) != e.seg
  }

  function StaleCount(es: Cached, m: map<nat, nat>, addr: nat): nat {
    if es == [] then 0 else (if StaleFor(es[0], m, addr) then 1 else 0) + StaleCount(es[1..], m, addr)
  }

  lemma {:induction false} StaleCountAdds(es: Cached, fs: Cached, m: map<nat, nat>, addr: nat)
    ensures StaleCount(es + fs, m, addr) == StaleCount(es, m, addr) + StaleCount(fs, m, addr)
  {
    if es == [] {
      assert es + fs == fs;
    } else {
      StaleCountAdds(es[1..], fs, m, addr);
      assert (es + fs)[1..] == es[1..] + fs;
    }
  }

  lemma {:induction false} StaleCountBound(es: Cached, m: map<nat, nat>, addr: nat)
    ensures StaleCount(es, m, addr) <= |es|
  {
    if es != [] {
      StaleCountBound(es[1..], m, addr);
    }
  }

  /** Moving an entry keeps the count; evicting it lowers the count by that entry. */
  lemma StaleCountMoves(es: Cached, m: map<nat, nat>, i: nat, addr: nat)
    requires i < |es|
    ensures StaleCount(MoveToFront(es, i), m, addr) == StaleCount(es, m, addr)
    ensures StaleCount(Evict(es, i), m, addr) == StaleCount(es, m, addr) - if StaleFor(es[i], m, addr) then 1 else 0
  {
    assert es == es[..i] + ([es[i]] + es[i + 1..]);
    assert MoveToFront(es, i) == [es[i]] + (es[..i] + es[i + 1..]);
    StaleCountAdds(es[..i], [es[i]] + es[i + 1..], m, addr);
    StaleCountAdds([es[i]], es[i + 1..], m, addr);
    StaleCountAdds([es[i]], es[..i] + es[i + 1..], m, addr);
    StaleCountAdds(es[..i], es[i + 1..], m, addr);
    StaleCountAdds(es[..i] + es[i + 1..], [Vacant], m, addr);
  }

  /** A lookup of any address never adds a stale entry, and one that ends in a stale hit removes one. */
  lemma SettleLowers(es: Cached, m: map<nat, nat>, looked: nat, addr: nat)
    requires |es| > 0
    ensures StaleCount(Settle(es, looked, ProbeAt(es, m, looked)), m, addr)
            + (if looked == addr && ProbeAt(es, m, looked).Stale? then 1 else 0) <= StaleCount(es, m, addr)
  {
    var i := FirstCover(es, looked, 0);
    if i < |es| {
      StaleCountMoves(es, m, i, addr);
    } else if Truth(m, looked) != 0 {
      var e, n := PageEntry(looked, Truth(m, looked)), |es| - 1;
      assert Push(es, e)[1..] == es[..n];
      assert es == es[..n] + es[n..];
      StaleCountAdds(es[..n], es[n..], m, addr);
    }
  }

  /** The top entry is the segment found, and its slot vouches for it. */
  predicate TopFresh(es: Cached, m: map<nat, nat>, seg: nat) {
    |es| > 0 && es[0].Used? && es[0].seg == seg && Get(m, es[0].leaf) == seg
  }

  lemma SettleTop(es: Cached, m: map<nat, nat>, addr: nat)
    requires |es| > 0
    ensures FindAnswer(es, m, addr) != 0 ==>
              TopFresh(Settle(es, addr, ProbeAt(es, m, addr)), m, FindAnswer(es, m, addr))
  {
  }

  /** Widening a fresh entry adds no stale one. */
  lemma WidenKeepsCount(desc: Descriptors, es: Cached, m: map<nat, nat>, seg: nat, addr: nat)
    requires seg != 0 ==> TopFresh(es, m, seg)
    ensures StaleCount(WidenFound(desc, es, seg), m, addr) == StaleCount(es, m, addr)
  {
    if seg != 0 && seg in desc {
      assert WidenFound(desc, es, seg)[1..] == es[1..];
    }
  }

  /** A call that disagrees with the trie uses up a stale entry; no call adds one. */
  lemma CallLowersCount(desc: Descriptors, es: Cached, m: map<nat, nat>, addr: nat)
    requires CacheOk(desc, es) && MapOk(desc, m) && FullyInserted(desc, m)
    ensures StaleCount(FindCache(desc, es, m, addr), m, addr)
            + (if FindAnswer(es, m, addr) != Truth(m, addr) then 1 else 0) <= StaleCount(es, m, addr)
  {
    DisagreesIffStale(desc, es, m, addr);
    SettleLowers(es, m, addr, addr);
    SettleTop(es, m, addr);
    WidenKeepsCount(desc, Settle(es, addr, ProbeAt(es, m, addr)), m, FindAnswer(es, m, addr), addr);
  }

  /** Spurious nulls are bounded: over any number of calls with no change to the trie, at most as
      many disagree with it as stale entries covered the address at the start. */
  lemma {:induction false} SpuriousNullsBounded(desc: Descriptors, es: Cached, m: map<nat, nat>, addr: nat, n: nat)
    requires CacheOk(desc, es) && MapOk(desc, m) && FullyInserted(desc, m)
    ensures Wrong(desc, es, m, addr, n) <= StaleCount(es, m, addr) <= CACHE_SIZE
    decreases n
  {
    StaleCountBound(es, m, addr);
    if n > 0 {
      CallLowersCount(desc, es, m, addr);
      FindOk(desc, es, m, addr);
      SpuriousNullsBounded(desc, FindCache(desc, es, m, addr), m, addr, n - 1);
    }
  }

  /** The cache after n calls. */
  function CacheAfter(desc: Descriptors, es: Cached, m: map<nat, nat>, addr: nat, n: nat): Cached
    decreases n
  {
    if n == 0 then es else CacheAfter(desc, FindCache(desc, es, m, addr), m, addr, n - 1)
  }

  /** If not all of n calls disagree, one of them agrees. */
  lemma {:induction false} FirstAgreement(desc: Descriptors, es: Cached, m: map<nat, nat>, addr: nat, n: nat)
    returns (j: nat)
    requires Wrong(desc, es, m, addr, n) < n
    ensures j < n && FindAnswer(CacheAfter(desc, es, m, addr, j), m, addr) == Truth(m, addr)
    decreases n
  {
    if FindAnswer(es, m, addr) == Truth(m, addr) {
      j := 0;
    } else {
      j := FirstAgreement(desc, FindCache(desc, es, m, addr), m, addr, n - 1);
      j := j + 1;
    }
  }

  /** Repeating a lookup gives the uncached answer within 17 calls. */
  lemma AgreesWithinSeventeen(desc: Descriptors, es: Cached, m: map<nat, nat>, addr: nat) returns (j: nat)
    requires CacheOk(desc, es) && MapOk(desc, m) && FullyInserted(desc, m)
    ensures j <= CACHE_SIZE && FindAnswer(CacheAfter(desc, es, m, addr, j), m, addr) == Truth(m, addr)
  {
    SpuriousNullsBounded(desc, es, m, addr, CACHE_SIZE + 1);
    j := FirstAgreement(desc, es, m, addr, CACHE_SIZE + 1);
  }
}
