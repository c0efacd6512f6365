/** What changes in a mapping when a run of consecutive pages is inserted or cleared. */
module PageRange {
  import opened Platform
  import opened Radix
  import opened AtomicMap

  /** Some page of lo, ..., hi - 1 has this key. */
  ghost predicate KeyInPages(k: nat, lo: nat, hi: nat) {
    exists pg :: lo <= pg < hi && Key(pg) == k
  }

  lemma KeyInMorePages(k: nat, lo: nat, pg: nat)
    requires lo <= pg
    ensures KeyInPages(k, lo, pg + 1) <==> KeyInPages(k, lo, pg) || Key(pg) == k
  {
    if KeyInPages(k, lo, pg) {
      var q :| lo <= q < pg && Key(q) == k;
      assert lo <= q < pg + 1;
    }
    assert Key(pg) == k ==> KeyInPages(k, lo, pg + 1);
  }

  /** Exactly the keys of pages lo, ..., hi - 1 now have the value (null: none); all others are as
      before. */
  ghost predicate RangeSet(m: map<nat, nat>, m': map<nat, nat>, lo: nat, hi: nat, value: nat) {
    forall k: nat {:trigger Get(m', k)} :: Get(m', k) == if KeyInPages(k, lo, hi) then value else Get(m, k)
  }

  /** Only keys of those pages changed, and only to the value; some may have been skipped. */
  ghost predicate OnlySet(m: map<nat, nat>, m': map<nat, nat>, lo: nat, hi: nat, value: nat) {
    forall k: nat {:trigger Get(m', k)} :: Get(m', k) == Get(m, k) || (KeyInPages(k, lo, hi) && Get(m', k) == value)
  }

  /** Every page from lo to hi - 1 has the value, except the missed ones. */
  ghost predicate AllBut(m: map<nat, nat>, lo: nat, hi: nat, missed: seq<nat>, value: nat) {
    forall pg {:trigger Key(pg)} :: lo <= pg < hi && pg !in missed ==> Get(m, Key(pg)) == value
  }

  lemma AllButStep(m: map<nat, nat>, lo: nat, pg: nat, missed: seq<nat>, value: nat)
    requires lo <= pg && AllBut(m, lo, pg, missed, value) && value != 0
    ensures AllBut(m, lo, pg + 1, missed + [pg], value) && AllBut(Put(m, Key(pg), value), lo, pg + 1, missed, value)
  {
    var m' := Put(m, Key(pg), value);
    assert forall k: nat {:trigger Get(m', k)} :: Get(m', k) == if k == Key(pg) then value else Get(m, k);
    forall q {:trigger Key(q)} | lo <= q < pg + 1 && q !in missed ensures Get(m', Key(q)) == value {
      assert q < pg ==> Get(m, Key(q)) == value;
    }
  }

  lemma RangeSetStep(m: map<nat, nat>, m': map<nat, nat>, lo: nat, pg: nat, value: nat)
    requires lo <= pg && RangeSet(m, m', lo, pg, value)
    ensures RangeSet(m, Put(m', Key(pg), value), lo, pg + 1, value)
  {
    var m'' := Put(m', Key(pg), value);
    forall k: nat ensures Get(m'', k) == if KeyInPages(k, lo, pg + 1) then value else Get(m, k) {
      KeyInMorePages(k, lo, pg);
      assert Get(m'', k) == if k == Key(pg) then value else Get(m', k);
    }
  }

  lemma OnlySetStep(m: map<nat, nat>, m': map<nat, nat>, lo: nat, pg: nat, value: nat)
    requires lo <= pg && OnlySet(m, m', lo, pg, value)
    ensures OnlySet(m, m', lo, pg + 1, value) && OnlySet(m, Put(m', Key(pg), value), lo, pg + 1, value)
  {
    var m'' := Put(m', Key(pg), value);
    forall k: nat ensures KeyInPages(k, lo, pg + 1) <==> KeyInPages(k, lo, pg) || Key(pg) == k {
      KeyInMorePages(k, lo, pg);
    }
    assert forall k: nat {:trigger Get(m'', k)} :: Get(m'', k) == if k == Key(pg) then value else Get(m', k);
  }

  /** The keys whose entries a byte range covers. */
  ghost predicate KeyInBytes(k: nat, base: nat, size: nat) {
    exists pg: nat :: Intersects(pg, base, size) && Key(pg) == k
  }

  /** Setting the pages of a byte range changes the pages that intersect it and no others, unless the range
      ends in the last page of the 64-bit range: then nothing changes. */
  lemma RangeSetIsExact(m: map<nat, nat>, m': map<nat, nat>, base: nat, size: nat, value: nat, k: nat)
    requires size > 0 && base + size <= WORD && RangeSet(m, m', PageBegin(base), WordPageEnd(base, size), value)
    ensures Get(m', k) == if base + size + PAGE_SIZE <= WORD && KeyInBytes(k, base, size) then value else Get(m, k)
  {
    var lo, hi := PageBegin(base), WordPageEnd(base, size);
    WordPageEndWraps(base, size);
    if KeyInPages(k, lo, hi) {
      var pg :| lo <= pg < hi && Key(pg) == k;
      RangePagesExact(base, size, pg);
    }
    if KeyInBytes(k, base, size) {
      var pg: nat :| Intersects(pg, base, size) && Key(pg) == k;
      RangePagesExact(base, size, pg);
    }
  }
}

/** The nodes below a position, as sets of addresses. */
module TrieSubtree {
  import opened Radix
  import opened TrieHeap

  predicate Under(q: Path, p: Path) {
    q == p || (q.Step? && Under(q.front, p))
  }

  /** The digit `q` takes right below `p`. */
  function DigitBelow(q: Path, p: Path): nat
    requires Under(q, p) && q != p
  {
    if q.front == p then q.digit else DigitBelow(q.front, p)
  }

  lemma {:induction false} UnderIsDeeper(q: Path, p: Path)
    requires Under(q, p)
    ensures q.Depth() >= p.Depth()
    ensures q != p ==> q.Depth() > p.Depth()
  {
    if q != p {
      UnderIsDeeper(q.front, p);
    }
  }

  /** Being below slot i of p is being strictly below p through digit i. */
  lemma {:induction false} UnderStep(q: Path, p: Path, i: nat)
    ensures Under(q, Radix.Step(p, i)) <==> (Under(q, p) && q != p && DigitBelow(q, p) == i)
  {
    match q
    case Top =>
    case Step(front, digit) =>
      UnderStep(front, p, i);
      if q == Radix.Step(p, i) {
        assert Under(front, p);
      }
      if Under(q, p) && q != p && front == p && Under(front, Radix.Step(p, i)) {
        UnderIsDeeper(front, Radix.Step(p, i));
      }
      if q == p && Under(q, Radix.Step(p, i)) {
        UnderIsDeeper(q, Radix.Step(p, i));
      }
  }

  /** Below an installed position everything on the way is installed. */
  lemma {:induction false} UnderInstalled(t: Tree, q: Path, p: Path)
    requires WellFormed(t) && q in t.at && Under(q, p)
    ensures p in t.at
    ensures q != p ==> DigitBelow(q, p) < FANOUT && Radix.Step(p, DigitBelow(q, p)) in t.at
  {
    if q != p {
      assert ParentInstalled(t, q.front, q.digit);
      UnderInstalled(t, q.front, p);
    }
  }

  /** All nodes at or below a position. */
  ghost function Subtree(t: Tree, p: Path): set<Addr> {
    set q | q in t.at && Under(q, p) :: t.at[q]
  }

  /** All nodes strictly below a position through a digit smaller than i. */
  ghost function Before(t: Tree, p: Path, i: nat): set<Addr> {
    set q | q in t.at && Under(q, p) && q != p && DigitBelow(q, p) < i :: t.at[q]
  }

  /** One more slot: its subtree, if the slot is linked, joins the nodes already visited, and it
      has none of them in common. */
  lemma BeforeStep(t: Tree, p: Path, i: nat)
    requires WellFormed(t) && p in t.at
    ensures var child := Radix.Step(p, i);
            Before(t, p, i + 1) == if child in t.at then Before(t, p, i) + Subtree(t, child) else Before(t, p, i)
    ensures Before(t, p, i) !! Subtree(t, Radix.Step(p, i))
  {
    var child := Radix.Step(p, i);
    forall q | q in t.at
      ensures Under(q, child) <==> (Under(q, p) && q != p && DigitBelow(q, p) == i)
      ensures Under(q, child) ==> child in t.at
    {
      UnderStep(q, p, i);
      if Under(q, child) {
        UnderInstalled(t, q, child);
      }
    }
    forall q, r | q in t.at && r in t.at ensures t.at[q] == t.at[r] ==> q == r {
      assert OnePosition(t, q, r);
    }
  }

  /** Everything strictly below a position hangs in one of its slots, and nothing is below the leaf level. */
  lemma BelowInSlot(t: Tree, q: Path, p: Path)
    requires WellFormed(t) && q in t.at && Under(q, p) && q != p
    ensures DigitBelow(q, p) < FANOUT && p.Depth() < LEVELS - 1
  {
    UnderInstalled(t, q, p);
    UnderIsDeeper(q, p);
    assert t.at[q] in t.nodes;
  }

  /** A subtree is its own node and everything below its slots. */
  lemma SubtreeSplits(t: Tree, p: Path)
    requires WellFormed(t) && p in t.at
    ensures Subtree(t, p) == Before(t, p, FANOUT) + {t.at[p]}
    ensures t.at[p] !in Before(t, p, FANOUT)
    ensures Before(t, p, 0) == {}
    ensures p.Depth() == LEVELS - 1 ==> Before(t, p, FANOUT) == {}
  {
    forall n | n in Subtree(t, p) ensures n in Before(t, p, FANOUT) || n == t.at[p] {
      var q :| q in t.at && Under(q, p) && t.at[q] == n;
      if q != p {
        BelowInSlot(t, q, p);
      }
    }
    forall n | n in Before(t, p, FANOUT) ensures n in Subtree(t, p) && n != t.at[p] && p.Depth() < LEVELS - 1 {
      var q :| q in t.at && Under(q, p) && q != p && DigitBelow(q, p) < FANOUT && t.at[q] == n;
      BelowInSlot(t, q, p);
      assert OnePosition(t, q, p);
    }
  }

  /** The memory still holds the whole subtree unchanged. */
  ghost predicate Intact(t: Tree, p: Path, nodes: Nodes) {
    forall n {:trigger t.nodes[n]} {:trigger nodes[n]} ::
      n in Subtree(t, p) && n in t.nodes ==> n in nodes && nodes[n] == t.nodes[n]
  }

  /** With the subtrees of the earlier slots gone, slot i still leads to its child, whose subtree is intact. */
  lemma ChildIntact(t: Tree, p: Path, i: nat, nodes: Nodes)
    requires WellFormed(t) && p in t.at && p.Depth() < LEVELS - 1 && i < FANOUT && Intact(t, p, nodes)
    ensures var child, rest := Radix.Step(p, i), nodes - Before(t, p, i);
            && Load(rest, Slot(t.at[p], i)) == (if child in t.at then t.at[child] else 0)
            && (child in t.at ==> child.Depth() == p.Depth() + 1 && Intact(t, child, rest) && t.at[child] != 0)
  {
    var child := Radix.Step(p, i);
    assert Linked(t, p, i);
    SubtreeSplits(t, p);
    assert t.at[p] in t.nodes && t.at[p] !in Before(t, p, i) by {
      forall q | q in t.at ensures t.at[q] == t.at[p] ==> q == p {
        assert OnePosition(t, q, p);
      }
    }
    BeforeStep(t, p, i);
    forall q | q in t.at && Under(q, child) ensures Under(q, p) {
      UnderStep(q, p, i);
    }
    assert child in t.at ==> t.at[child] in t.nodes;
  }

  /** The subtree's own node is still there after everything below it is gone. */
  lemma OwnNodeIntact(t: Tree, p: Path, nodes: Nodes)
    requires WellFormed(t) && p in t.at && Intact(t, p, nodes)
    ensures t.at[p] in nodes && t.at[p] in nodes - Before(t, p, FANOUT)
  {
    SubtreeSplits(t, p);
    assert t.at[p] in t.nodes;
  }

  lemma MinusTwice(nodes: Nodes, a: set<Addr>, b: set<Addr>)
    ensures nodes - a - b == nodes - (a + b)
  {
  }

  lemma BeforeSize(t: Tree, p: Path, i: nat)
    requires WellFormed(t) && p in t.at
    ensures var child := Radix.Step(p, i);
            |Before(t, p, i + 1)| == |Before(t, p, i)| + if child in t.at then |Subtree(t, child)| else 0
  {
    BeforeStep(t, p, i);
  }

  lemma SubtreeSize(t: Tree, p: Path)
    requires WellFormed(t) && p in t.at
    ensures |Subtree(t, p)| == 1 + if p.Depth() < LEVELS - 1 then |Before(t, p, FANOUT)| else 0
    ensures |Before(t, p, 0)| == 0
  {
    SubtreeSplits(t, p);
    assert t.at[p] in t.nodes;
  }

  lemma {:induction false} UnderTop(q: Path)
    ensures Under(q, Top)
  {
    if q != Top {
      UnderTop(q.front);
    }
  }

  /** The subtree of the root is every installed node. */
  lemma WholeTree(t: Tree)
    requires WellFormed(t) && t.nodes.Keys == t.at.Values
    ensures Subtree(t, Top) == t.nodes.Keys
    ensures |t.nodes| == |t.nodes.Keys|
  {
    forall q | q in t.at ensures Under(q, Top) {
      UnderTop(q);
    }
    forall n | n in t.nodes.Keys ensures n in Subtree(t, Top) {
      assert n in t.at.Values;
      var q :| q in t.at && t.at[q] == n;
    }
  }
}

/** ncrit_trie as one thread runs it: the descent loops, the range loops, counting and teardown. */
module NcritTrie {
  import opened Platform
  import opened Radix
  import opened AtomicMap
  import opened TrieHeap
  import opened PageRange
  import opened TrieSubtree

  lemma ValuesGrow(at: map<Path, Addr>, p: Path, n: Addr)
    requires p !in at
    ensures at[p := n].Values == at.Values + {n}
  {
    var at' := at[p := n];
    assert at'[p] == n;
    forall x | x in at.Values ensures x in at'.Values {
      var q :| q in at && at[q] == x;
      assert at'[q] == x;
    }
  }

  class Trie {
    const root: Addr
    var nodes: Nodes
    ghost var at: map<Path, Addr>
    ghost var mapping: map<nat, Addr>  // the page-to-value mapping this trie stands for
    ghost var refused: nat             // how often the allocator refused memory so far

    ghost function Shape(): Tree
      reads this
    {
      Tree(nodes, root, at)
    }

    /** `mapping` is what the nodes say; they form a tree, and nothing is allocated outside it. */
    ghost predicate Valid()
      reads this
    {
      WellFormed(Shape()) && nodes.Keys == at.Values && mapping == Contents(Shape())
    }

    constructor (root: Addr)
      requires Aligned(root)
      ensures Valid() && mapping == map[] && |nodes| == 1 && refused == 0
    {
      this.root := root;
      nodes := map[root := EmptyNode()];
      at := map[Top := root];
      mapping := map[];
      refused := 0;
      new;
      var t := Shape();
      assert at[Top] in at.Values;
      assert WellFormed(t) by {
        forall p, i | p in t.at && 0 <= i < FANOUT && p.Depth() < LEVELS - 1 ensures Linked(t, p, i) {}
        forall p, i | p in t.at && 0 <= i < FANOUT && p.Depth() == LEVELS - 1 ensures LeafWord(t, p, i) {}
        forall p, q | p in t.at && q in t.at ensures OnePosition(t, p, q) {}
      }
      forall k ensures RawAt(t, k) == 0 {
        RawIsLeafWord(t, k);
      }
    }

    /** `new (std::nothrow)`: any address not in use, or null, which is counted. */
    method NewAddress() returns (a: Addr)
      modifies this`refused
      ensures a == 0 || (Aligned(a) && a !in nodes)
      ensures refused == old(refused) + if a == 0 then 1 else 0
    {
      a :| a == 0 || (Aligned(a) && a !in nodes);
      refused := refused + if a == 0 then 1 else 0;
    }

    /** Allocates a node and links it into the empty slot below `cur`. Running alone, the
        compare-and-swap always finds the slot still empty. Null when out of memory. */
    method LinkChild(page: nat, depth: nat, cur: Addr) returns (child: Addr)
      requires Valid() && depth < LEVELS - 1 && StandsOn(Shape(), page, depth, cur)
      requires Load(nodes, SlotOn(page, depth, cur)) == 0
      modifies this
      ensures Valid() && mapping == old(mapping)
      ensures child == 0 ==> nodes == old(nodes)
      ensures refused == old(refused) + if child == 0 then 1 else 0
      ensures child != 0 ==> StandsOn(Shape(), page, depth + 1, child) && |nodes| == |old(nodes)| + 1
    {
      child := NewAddress();
      if child != 0 {
        ghost var t := WithNode(Shape(), child);
        AllocNode(Shape(), child);
        LoadLink(Shape(), page, depth, cur);
        LinkNode(t, page, depth, cur, child);
        ValuesGrow(at, PathOf(page, depth + 1), child);
        nodes := nodes[child := EmptyNode()];
        nodes := Store(nodes, SlotOn(page, depth, cur), child);
        at := at[PathOf(page, depth + 1) := child];
        assert nodes.Keys == old(nodes.Keys) + {child};
      }
    }

    /** Maps one page, unless the allocator refuses memory for a node on the way: then, and only then, the mapping
        stays as it was. At most one node per level below the root is added, whatever happens. */
    method InsertLeaf(page: nat, value: Addr) returns (stored: bool)
      requires Valid() && Aligned(value)
      modifies this
      ensures Valid()
      ensures mapping == if stored then Put(old(mapping), Key(page), value) else old(mapping)
      ensures refused == old(refused) + if stored then 0 else 1
      ensures |old(nodes)| <= |nodes| <= |old(nodes)| + LEVELS - 1
    {
      var cur := root;
      for d := 0 to LEVELS - 1
        invariant Valid() && StandsOn(Shape(), page, d, cur)
        invariant mapping == old(mapping) && refused == old(refused)
        invariant |old(nodes)| <= |nodes| <= |old(nodes)| + d
      {
        var child := Load(nodes, SlotOn(page, d, cur));
        LoadLink(Shape(), page, d, cur);
        if child == 0 {
          child := LinkChild(page, d, cur);
          if child == 0 {
            return false;
          }
        }
        cur := child;
      }
      WriteSlot(page, cur, value);
      stored := true;
    }

    /** The store to a page's leaf slot. */
    method WriteSlot(page: nat, leaf: Addr, value: Addr)
      requires Valid() && StandsOn(Shape(), page, LEVELS - 1, leaf) && (value == 0 || Aligned(value))
      modifies this`nodes, this`mapping
      ensures Valid() && mapping == Put(old(mapping), Key(page), value)
      ensures nodes.Keys == old(nodes.Keys)
    {
      WriteLeaf(Shape(), page, value);
      nodes := Store(nodes, SlotOn(page, LEVELS - 1, leaf), Tag(value));
      mapping := Put(mapping, Key(page), value);
    }

    /** Unmaps one page; a missing link means there is nothing to clear. */
    method ClearLeaf(page: nat)
      requires Valid()
      modifies this`nodes, this`mapping
      ensures Valid() && mapping == Put(old(mapping), Key(page), 0)
      ensures nodes.Keys == old(nodes.Keys)
    {
      var cur := root;
      for d := 0 to LEVELS - 1
        invariant Valid() && StandsOn(Shape(), page, d, cur)
        invariant mapping == old(mapping) && nodes == old(nodes)
      {
        var child := Load(nodes, SlotOn(page, d, cur));
        LoadLink(Shape(), page, d, cur);
        if child == 0 {
          LoadReadsContents(Shape(), page, d, cur);
          return;
        }
        cur := child;
      }
      WriteSlot(page, cur, 0);
    }

    /** The value of a page, and where it was read from when there is one. */
    method LookupPageWithSlot(page: nat) returns (value: Addr, leaf: Slot)
      requires Valid()
      ensures value == Get(mapping, Key(page))
      ensures value != 0 ==> LeafPath(page) in at && leaf == LeafSlot(Shape(), page)
    {
      var cur := root;
      for d := 0 to LEVELS - 1
        invariant StandsOn(Shape(), page, d, cur)
      {
        var child := Load(nodes, SlotOn(page, d, cur));
        LoadLink(Shape(), page, d, cur);
        if child == 0 {
          LoadReadsContents(Shape(), page, d, cur);
          return 0, Slot(0, 0);
        }
        cur := child;
      }
      LoadReadsContents(Shape(), page, LEVELS - 1, cur);
      leaf := SlotOn(page, LEVELS - 1, cur);
      value := Untag(Load(nodes, leaf));
    }

    /** The page loop of insert_range. A page that could not be stored for lack of memory keeps
        its old value, and the loop goes on: one page is missed for each refusal, all others are mapped. The
        insertion is complete exactly when no memory was refused. */
    method InsertPages(begin: nat, end: nat, value: Addr) returns (complete: bool, ghost missed: seq<nat>)
      requires Valid() && Aligned(value)
      modifies this
      ensures Valid()
      ensures refused == old(refused) + |missed| && AllBut(mapping, begin, end, missed, value)
      ensures complete ==> RangeSet(old(mapping), mapping, begin, end, value)
      ensures refused >= old(refused) && (complete <==> refused == old(refused))
      ensures OnlySet(old(mapping), mapping, begin, end, value)
    {
      var pg := begin;
      complete, missed := true, [];
      while pg < end
        invariant begin <= pg && (pg <= end || pg == begin) && Valid()
        invariant refused == old(refused) + |missed| && AllBut(mapping, begin, pg, missed, value)
        invariant complete ==> RangeSet(old(mapping), mapping, begin, pg, value)
        invariant refused >= old(refused) && (complete <==> refused == old(refused))
        invariant OnlySet(old(mapping), mapping, begin, pg, value)
      {
        OnlySetStep(old(mapping), mapping, begin, pg, value);
        AllButStep(mapping, begin, pg, missed, value);
        if complete {
          RangeSetStep(old(mapping), mapping, begin, pg, value);
        }
        var stored := InsertLeaf(pg, value);
        complete := complete && stored;
        missed := if stored then missed else missed + [pg];
        pg := pg + 1;
      }
    }

    /** The page loop of remove_range. */
    method ClearPages(begin: nat, end: nat)
      requires Valid()
      modifies this
      ensures Valid() && refused == old(refused) && nodes.Keys == old(nodes.Keys)
      ensures RangeSet(old(mapping), mapping, begin, end, 0)
    {
      var pg := begin;
      while pg < end
        invariant begin <= pg && (pg <= end || pg == begin) && Valid()
        invariant refused == old(refused) && nodes.Keys == old(nodes.Keys)
        invariant RangeSet(old(mapping), mapping, begin, pg, 0)
      {
        RangeSetStep(old(mapping), mapping, begin, pg, 0);
        ClearLeaf(pg);
        pg := pg + 1;
      }
    }

    /** insert_range: sets the computed page interval of [base, base + size), in 64-bit arithmetic. */
    method InsertRange(base: nat, size: nat, value: Addr) returns (complete: bool, ghost missed: seq<nat>)
      requires Valid() && Aligned(value) && base < WORD && size < WORD
      modifies this
      ensures Valid()
      ensures refused == old(refused) + |missed|
      ensures AllBut(mapping, PageBegin(base), WordPageEnd(base, size), missed, value)
      ensures complete ==> RangeSet(old(mapping), mapping, PageBegin(base), WordPageEnd(base, size), value)
      ensures refused >= old(refused) && (complete <==> refused == old(refused))
      ensures OnlySet(old(mapping), mapping, PageBegin(base), WordPageEnd(base, size), value)
    {
      complete, missed := InsertPages(PageBegin(base), WordPageEnd(base, size), value);
    }

    /** remove_range: clears the same interval. */
    method RemoveRange(base: nat, size: nat)
      requires Valid() && base < WORD && size < WORD
      modifies this
      ensures Valid() && refused == old(refused) && nodes.Keys == old(nodes.Keys)
      ensures RangeSet(old(mapping), mapping, PageBegin(base), WordPageEnd(base, size), 0)
    {
      ClearPages(PageBegin(base), WordPageEnd(base, size));
    }

    /** Counts a subtree by following links. */
    method CountNodes(node: Addr, depth: nat, ghost t: Tree, ghost p: Path) returns (total: nat)
      requires t == Shape() && WellFormed(t) && p in t.at && t.at[p] == node && p.Depth() == depth
      ensures total == |Subtree(t, p)|
      decreases LEVELS - depth
    {
      total := 1;
      SubtreeSize(t, p);
      if depth < LEVELS - 1 {
        for i := 0 to FANOUT
          invariant total == 1 + |Before(t, p, i)|
        {
          var raw := Load(nodes, Slot(node, i));
          assert Linked(t, p, i);
          BeforeSize(t, p, i);
          if raw != 0 {
            var below := CountNodes(raw, depth + 1, t, Radix.Step(p, i));
            total := total + below;
          }
        }
      }
    }

    /** The node count is the number of allocated nodes. */
    method NodeCount() returns (total: nat)
      requires Valid()
      ensures total == |nodes|
    {
      total := CountNodes(root, 0, Shape(), Top);
      WholeTree(Shape());
    }

    /** `delete`: only an allocated node may be deleted. */
    method Delete(node: Addr)
      requires node in nodes
      modifies this`nodes
      ensures nodes == old(nodes) - {node}
    {
      nodes := nodes - {node};
    }

    /** Frees a subtree of the tree `t`: each of its nodes is still allocated when it is deleted,
        and exactly those nodes are gone afterwards. */
    method DestroySubtree(node: Addr, depth: nat, ghost t: Tree, ghost p: Path)
      requires WellFormed(t) && p in t.at && t.at[p] == node && p.Depth() == depth
      requires Intact(t, p, nodes)
      modifies this`nodes
      ensures nodes == old(nodes) - Subtree(t, p)
      decreases LEVELS - depth
    {
      SubtreeSplits(t, p);
      OwnNodeIntact(t, p, nodes);
      if depth < LEVELS - 1 {
        for i := 0 to FANOUT
          invariant nodes == old(nodes) - Before(t, p, i)
        {
          ChildIntact(t, p, i, old(nodes));
          BeforeStep(t, p, i);
          var raw := Load(nodes, Slot(node, i));
          if raw != 0 {
            MinusTwice(old(nodes), Before(t, p, i), Subtree(t, Radix.Step(p, i)));
            DestroySubtree(raw, depth + 1, t, Radix.Step(p, i));
          }
        }
      }
      MinusTwice(old(nodes), Before(t, p, FANOUT), {node});
      Delete(node);
    }

    /** Tearing the trie down frees everything it allocated. */
    method Destroy()
      requires Valid()
      modifies this`nodes
      ensures nodes == map[]
    {
      WholeTree(Shape());
      DestroySubtree(root, 0, Shape(), Top);
    }
  }
}
