/** The node heap behind an ncrit_trie: what is stored in it, and what one write changes. */
module TrieHeap {
  import opened Radix
  import opened AtomicMap

  /** Node and descriptor addresses; zero is the null pointer. */
  type Addr = nat

  /** One atomic slot inside a node. */
  datatype Slot = Slot(node: Addr, idx: nat)

  /** The memory: every allocated node with its slot words. */
  type Nodes = map<Addr, seq<nat>>

  /** `at` is an auxiliary variable: the installed nodes, by their position below the root. */
  datatype Tree = Tree(nodes: Nodes, root: Addr, at: map<Path, Addr>)

  /** A pointer whose low bit is free to carry the leaf tag. */
  predicate Aligned(a: Addr) {
    a != 0 && a % 2 == 0
  }

  /** The leaf word of a value; the null value stands for an empty slot. */
  function Tag(value: Addr): nat {
    if value == 0 then 0 else value + 1
  }

  function Untag(word: nat): Addr {
    word - word % 2
  }

  /** Zero, or a value with the leaf tag set. */
  predicate Tagged(word: nat) {
    word == 0 || (word % 2 == 1 && word > 1)
  }

  function EmptyNode(): seq<nat> {
    seq(FANOUT, _ => 0)
  }

  function Load(nodes: Nodes, s: Slot): nat {
    if s.node in nodes && s.idx < |nodes[s.node]| then nodes[s.node][s.idx] else 0
  }

  function Store(nodes: Nodes, s: Slot, word: nat): Nodes {
    if s.node in nodes && s.idx < |nodes[s.node]|
    then var row: seq<nat> := nodes[s.node][s.idx := word]; nodes[s.node := row]
    else nodes
  }

  /** The word reached by following a path from the root; zero once a link is missing. */
  function Walk(nodes: Nodes, root: Addr, p: Path): nat {
    match p
    case Top => root
    case Step(front, i) => Load(nodes, Slot(Walk(nodes, root, front), i))
  }

  /** The word a page's leaf slot holds. */
  function RawAt(t: Tree, page: nat): nat {
    Walk(t.nodes, t.root, PathOf(page, LEVELS))
  }

  /** What the trie maps: page key to value, read off the heap alone. */
  function Contents(t: Tree): map<nat, Addr> {
    map k | 0 <= k < KEYS && RawAt(t, k) != 0 :: Untag(RawAt(t, k))
  }

  /** The position of the leaf node that holds a page, and the index inside it. */
  function LeafPath(page: nat): Path {
    PathOf(page, LEVELS - 1)
  }

  function LeafIdx(page: nat): nat {
    LevelIdx(page, LEVELS - 1)
  }

  /** Slot i of the node at `p` links to the node recorded one digit further, or to nothing. */
  predicate Linked(t: Tree, p: Path, i: nat) {
    p in t.at && Load(t.nodes, Slot(t.at[p], i)) == if Step(p, i) in t.at then t.at[Step(p, i)] else 0
  }

  predicate ParentInstalled(t: Tree, p: Path, i: nat) {
    p in t.at && i < FANOUT
  }

  predicate OnePosition(t: Tree, p: Path, q: Path) {
    p in t.at && q in t.at && (t.at[p] == t.at[q] ==> p == q)
  }

  predicate LeafWord(t: Tree, p: Path, i: nat) {
    p in t.at && Tagged(Load(t.nodes, Slot(t.at[p], i)))
  }

  /** Installed nodes form a tree of exact depth: links and recorded positions agree, no node
      has two positions, and only tagged words sit at the leaf level. */
  ghost predicate WellFormed(t: Tree) {
    && Top in t.at && t.at[Top] == t.root && 0 !in t.nodes
    && (forall n {:trigger t.nodes[n]} :: n in t.nodes ==> Aligned(n) && |t.nodes[n]| == FANOUT)
    && (forall p {:trigger t.at[p]} :: p in t.at ==> p.Depth() < LEVELS && t.at[p] in t.nodes)
    && (forall p, i {:trigger ParentInstalled(t, p, i)} :: Step(p, i) in t.at ==> ParentInstalled(t, p, i))
    && (forall p, i {:trigger Linked(t, p, i)} ::
          p in t.at && 0 <= i < FANOUT && p.Depth() < LEVELS - 1 ==> Linked(t, p, i))
    && (forall p, q {:trigger OnePosition(t, p, q)} :: p in t.at && q in t.at ==> OnePosition(t, p, q))
    && (forall p, i {:trigger LeafWord(t, p, i)} ::
          p in t.at && 0 <= i < FANOUT && p.Depth() == LEVELS - 1 ==> LeafWord(t, p, i))
  }

  /** Walking the links and looking up the recorded position give the same node. */
  lemma {:induction false} WalkIsPosition(t: Tree, page: nat, depth: nat)
    requires WellFormed(t) && depth < LEVELS
    ensures var p := PathOf(page, depth);
            Walk(t.nodes, t.root, p) == if p in t.at then t.at[p] else 0
  {
    if depth > 0 {
      var front, i := PathOf(page, depth - 1), LevelIdx(page, depth - 1);
      WalkIsPosition(t, page, depth - 1);
      LevelIdxBound(page, depth - 1);
      if front in t.at {
        assert Linked(t, front, i);
      } else {
        assert ParentInstalled(t, front, i) ==> front in t.at;
      }
    }
  }

  /** A page's word sits in the installed leaf node on its path, if there is one. */
  lemma RawIsLeafWord(t: Tree, page: nat)
    requires WellFormed(t)
    ensures var p := LeafPath(page);
            RawAt(t, page) == if p in t.at then Load(t.nodes, Slot(t.at[p], LeafIdx(page))) else 0
  {
    WalkIsPosition(t, page, LEVELS - 1);
  }

  /** A missing link on a page's path means the page is unmapped. */
  lemma MissingLink(t: Tree, page: nat, depth: nat)
    requires WellFormed(t) && depth < LEVELS
    requires PathOf(page, depth) !in t.at
    ensures RawAt(t, page) == 0
  {
    MissingBelow(t, page, depth, LEVELS - 1);
    RawIsLeafWord(t, page);
  }

  lemma {:induction false} MissingBelow(t: Tree, page: nat, depth: nat, below: nat)
    requires WellFormed(t) && depth <= below < LEVELS
    requires PathOf(page, depth) !in t.at
    ensures PathOf(page, below) !in t.at
  {
    if depth < below {
      MissingBelow(t, page, depth, below - 1);
      assert PathOf(page, below) in t.at ==> ParentInstalled(t, PathOf(page, below - 1), LevelIdx(page, below - 1));
    }
  }

  /** The address of a page's leaf slot, once its leaf node exists. */
  function LeafSlot(t: Tree, page: nat): Slot
    requires LeafPath(page) in t.at
  {
    Slot(t.at[LeafPath(page)], LeafIdx(page))
  }

  /** Distinct page keys own distinct leaf slots. */
  lemma LeafSlotsDistinct(t: Tree, p: nat, q: nat)
    requires WellFormed(t) && LeafPath(p) in t.at && LeafPath(q) in t.at
    ensures LeafSlot(t, p) == LeafSlot(t, q) <==> Key(p) == Key(q)
  {
    PathIdentifiesKey(p, q);
    assert OnePosition(t, LeafPath(p), LeafPath(q));
  }

  // ---- what one write changes ----

  /** Links `child` below the node at `p`. */
  function Install(t: Tree, p: Path, i: nat, child: Addr): Tree
    requires p in t.at
  {
    t.(nodes := Store(t.nodes, Slot(t.at[p], i), child), at := t.at[Step(p, i) := child])
  }

  /** Allocated, empty and not linked from anywhere. */
  ghost predicate Private(t: Tree, n: Addr) {
    && n in t.nodes && t.nodes[n] == EmptyNode()
    && forall p {:trigger t.at[p]} :: p in t.at ==> t.at[p] != n
  }

  ghost predicate CanInstall(t: Tree, p: Path, i: nat, child: Addr) {
    && WellFormed(t) && p in t.at && p.Depth() < LEVELS - 1 && i < FANOUT
    && Load(t.nodes, Slot(t.at[p], i)) == 0 && Private(t, child)
  }

  lemma InstallKeepsShape(t: Tree, p: Path, i: nat, child: Addr)
    requires CanInstall(t, p, i, child)
    ensures WellFormed(Install(t, p, i, child))
  {
    var t' := Install(t, p, i, child);
    assert Linked(t, p, i);
    forall q, j | q in t'.at && 0 <= j < FANOUT && q.Depth() < LEVELS - 1 ensures Linked(t', q, j) {
      if q == Step(p, i) {
        assert Step(q, j) in t.at ==> ParentInstalled(t, q, j);
        assert Step(q, j) != Step(p, i);
      } else {
        assert Linked(t, q, j) && OnePosition(t, p, q);
      }
    }
    forall q, r | q in t'.at && r in t'.at ensures OnePosition(t', q, r) {
      assert q in t.at && r in t.at ==> OnePosition(t, q, r);
    }
    forall q, j | Step(q, j) in t'.at ensures ParentInstalled(t', q, j) {
      assert Step(q, j) in t.at ==> ParentInstalled(t, q, j);
    }
    forall q, j | q in t'.at && 0 <= j < FANOUT && q.Depth() == LEVELS - 1 ensures LeafWord(t', q, j) {
      if q in t.at && q != Step(p, i) {
        assert LeafWord(t, q, j) && OnePosition(t, p, q);
      }
    }
  }

  lemma InstallKeepsWords(t: Tree, p: Path, i: nat, child: Addr, page: nat)
    requires CanInstall(t, p, i, child)
    ensures RawAt(Install(t, p, i, child), page) == RawAt(t, page)
  {
    var leaf := LeafPath(page);
    InstallKeepsShape(t, p, i, child);
    RawIsLeafWord(t, page);
    RawIsLeafWord(Install(t, p, i, child), page);
    assert Linked(t, p, i);
    if leaf in t.at {
      assert OnePosition(t, p, leaf);
    }
  }

  /** Overwrites one leaf slot. */
  function StoreLeaf(t: Tree, p: Path, i: nat, word: nat): Tree
    requires p in t.at
  {
    t.(nodes := Store(t.nodes, Slot(t.at[p], i), word))
  }

  lemma StoreLeafKeepsShape(t: Tree, p: Path, i: nat, word: nat)
    requires WellFormed(t) && p in t.at && p.Depth() == LEVELS - 1 && i < FANOUT
    requires Tagged(word)
    ensures WellFormed(StoreLeaf(t, p, i, word))
  {
    var t' := StoreLeaf(t, p, i, word);
    forall q, j | q in t.at && 0 <= j < FANOUT && q.Depth() < LEVELS - 1 ensures Linked(t', q, j) {
      assert Linked(t, q, j) && OnePosition(t, p, q);
    }
    forall q, j | q in t.at && 0 <= j < FANOUT && q.Depth() == LEVELS - 1 ensures LeafWord(t', q, j) {
      assert LeafWord(t, q, j) && OnePosition(t, p, q);
    }
    forall q, r | q in t.at && r in t.at ensures OnePosition(t', q, r) {
      assert OnePosition(t, q, r);
    }
    forall q, j | Step(q, j) in t.at ensures ParentInstalled(t', q, j) {
      assert ParentInstalled(t, q, j);
    }
  }

  /** A store to a page's leaf slot changes the words of exactly the pages with its key. */
  lemma StoreLeafWrites(t: Tree, page: nat, word: nat, other: nat)
    requires WellFormed(t) && LeafPath(page) in t.at
    requires Tagged(word)
    ensures RawAt(StoreLeaf(t, LeafPath(page), LeafIdx(page), word), other)
         == if Key(other) == Key(page) then word else RawAt(t, other)
  {
    LevelIdxBound(page, LEVELS - 1);
    StoreLeafKeepsShape(t, LeafPath(page), LeafIdx(page), word);
    RawIsLeafWord(t, other);
    RawIsLeafWord(StoreLeaf(t, LeafPath(page), LeafIdx(page), word), other);
    PathIdentifiesKey(page, other);
    if LeafPath(other) in t.at {
      assert OnePosition(t, LeafPath(page), LeafPath(other));
    }
  }

  /** Allocating a node, or freeing one that was never installed, is invisible. */
  lemma PrivateNodesInvisible(t: Tree, nodes: Nodes)
    requires WellFormed(t)
    requires forall p {:trigger t.at[p]} :: p in t.at ==> t.at[p] in nodes && nodes[t.at[p]] == t.nodes[t.at[p]]
    requires 0 !in nodes
    requires forall n {:trigger nodes[n]} :: n in nodes ==> Aligned(n) && |nodes[n]| == FANOUT
    ensures WellFormed(t.(nodes := nodes))
    ensures forall page :: RawAt(t.(nodes := nodes), page) == RawAt(t, page)
  {
    var t' := t.(nodes := nodes);
    assert WellFormed(t') by {
      forall q, j | q in t.at && 0 <= j < FANOUT && q.Depth() < LEVELS - 1 ensures Linked(t', q, j) {
        assert Linked(t, q, j);
      }
      forall q, j | q in t.at && 0 <= j < FANOUT && q.Depth() == LEVELS - 1 ensures LeafWord(t', q, j) {
        assert LeafWord(t, q, j);
      }
      forall q, r | q in t.at && r in t.at ensures OnePosition(t', q, r) {
        assert OnePosition(t, q, r);
      }
      forall q, j | Step(q, j) in t.at ensures ParentInstalled(t', q, j) {
        assert ParentInstalled(t, q, j);
      }
    }
    forall page ensures RawAt(t', page) == RawAt(t, page) {
      RawIsLeafWord(t, page);
      RawIsLeafWord(t', page);
    }
  }

  // ---- the same changes, seen on the mapping ----

  lemma SameWordsSameContents(t: Tree, t': Tree)
    requires forall k {:trigger RawAt(t', k)} :: 0 <= k < KEYS ==> RawAt(t', k) == RawAt(t, k)
    ensures Contents(t') == Contents(t)
  {
  }

  lemma PointwiseContents(t: Tree, t': Tree, key: nat, value: Addr)
    requires key < KEYS && (value == 0 || Aligned(value))
    requires forall k {:trigger RawAt(t', k)} :: 0 <= k < KEYS ==>
               RawAt(t', k) == if k == key then Tag(value) else RawAt(t, k)
    ensures Contents(t') == Put(Contents(t), key, value)
  {
    assert value != 0 ==> Untag(Tag(value)) == value;
  }

  lemma StoreLeafAtKey(t: Tree, page: nat, value: Addr, k: nat)
    requires WellFormed(t) && LeafPath(page) in t.at && (value == 0 || Aligned(value)) && k < KEYS
    ensures RawAt(StoreLeaf(t, LeafPath(page), LeafIdx(page), Tag(value)), k)
         == if k == Key(page) then Tag(value) else RawAt(t, k)
  {
    StoreLeafWrites(t, page, Tag(value), k);
    KeyOfSmall(k);
  }

  /** A tagged store maps the page, a zero store unmaps it; no other key moves. */
  lemma StoreLeafContents(t: Tree, page: nat, value: Addr)
    requires WellFormed(t) && LeafPath(page) in t.at && (value == 0 || Aligned(value))
    ensures WellFormed(StoreLeaf(t, LeafPath(page), LeafIdx(page), Tag(value)))
    ensures Contents(StoreLeaf(t, LeafPath(page), LeafIdx(page), Tag(value))) == Put(Contents(t), Key(page), value)
  {
    var t' := StoreLeaf(t, LeafPath(page), LeafIdx(page), Tag(value));
    LevelIdxBound(page, LEVELS - 1);
    StoreLeafKeepsShape(t, LeafPath(page), LeafIdx(page), Tag(value));
    forall k {:trigger RawAt(t', k)} | 0 <= k < KEYS
      ensures RawAt(t', k) == if k == Key(page) then Tag(value) else RawAt(t, k)
    {
      StoreLeafAtKey(t, page, value, k);
    }
    PointwiseContents(t, t', Key(page), value);
  }

  /** A leaf word is zero or odd, so tagging undoes untagging. */
  lemma LeafWordTagged(t: Tree, page: nat)
    requires WellFormed(t)
    ensures RawAt(t, page) == Tag(Untag(RawAt(t, page)))
    ensures RawAt(t, page) == 0 <==> Untag(RawAt(t, page)) == 0
  {
    RawIsLeafWord(t, page);
    LevelIdxBound(page, LEVELS - 1);
    if LeafPath(page) in t.at {
      assert LeafWord(t, LeafPath(page), LeafIdx(page));
    }
  }

  /** Reading a page's leaf word is reading the mapping at its key. */
  lemma ContentsAt(t: Tree, page: nat)
    requires WellFormed(t)
    ensures RawAt(t, page) == Tag(Get(Contents(t), Key(page)))
  {
    KeyOfSmall(Key(page));
    PathIdentifiesKey(page, Key(page));
    assert RawAt(t, Key(page)) == RawAt(t, page);
    LeafWordTagged(t, page);
  }

  // ---- the steps an operation is made of ----

  /** The slot of `cur` that the operation's page selects at a depth. */
  function SlotOn(page: nat, depth: nat, cur: Addr): Slot {
    Slot(cur, if depth < LEVELS then LevelIdx(page, depth) else 0)
  }

  /** The node a thread stands on is installed exactly where its page's path leads. */
  predicate StandsOn(t: Tree, page: nat, depth: nat, cur: Addr) {
    depth < LEVELS && PathOf(page, depth) in t.at && t.at[PathOf(page, depth)] == cur
  }

  /** What other threads may rely on when one thread changes the tree. */
  ghost predicate TreeGrows(t: Tree, t': Tree, own: set<Addr>) {
    && t'.root == t.root
    && (forall p {:trigger t'.at[p]} {:trigger t.at[p]} :: p in t.at ==> p in t'.at && t'.at[p] == t.at[p])
    && (forall n {:trigger Private(t', n)} :: Private(t, n) && n !in own ==> Private(t', n))
  }

  function WithNode(t: Tree, own: Addr): Tree {
    t.(nodes := t.nodes[own := EmptyNode()])
  }

  function WithoutNode(t: Tree, own: Addr): Tree {
    t.(nodes := t.nodes - {own})
  }

  lemma LoadLink(t: Tree, page: nat, depth: nat, cur: Addr)
    requires WellFormed(t) && depth < LEVELS - 1 && StandsOn(t, page, depth, cur)
    ensures var word := Load(t.nodes, SlotOn(page, depth, cur));
            if word == 0 then PathOf(page, depth + 1) !in t.at else StandsOn(t, page, depth + 1, word)
  {
    LevelIdxBound(page, depth);
    assert Linked(t, PathOf(page, depth), LevelIdx(page, depth));
  }

  lemma AllocNode(t: Tree, own: Addr)
    requires WellFormed(t) && Aligned(own) && own !in t.nodes
    ensures WellFormed(WithNode(t, own)) && TreeGrows(t, WithNode(t, own), {}) && Private(WithNode(t, own), own)
    ensures Contents(WithNode(t, own)) == Contents(t)
  {
    PrivateNodesInvisible(t, WithNode(t, own).nodes);
    SameWordsSameContents(t, WithNode(t, own));
  }

  lemma FreeNode(t: Tree, own: Addr)
    requires WellFormed(t) && Private(t, own)
    ensures WellFormed(WithoutNode(t, own)) && TreeGrows(t, WithoutNode(t, own), {own})
    ensures Contents(WithoutNode(t, own)) == Contents(t)
  {
    PrivateNodesInvisible(t, WithoutNode(t, own).nodes);
    SameWordsSameContents(t, WithoutNode(t, own));
  }

  lemma LinkNode(t: Tree, page: nat, depth: nat, cur: Addr, own: Addr)
    requires WellFormed(t) && depth < LEVELS - 1 && StandsOn(t, page, depth, cur) && Private(t, own)
    requires Load(t.nodes, SlotOn(page, depth, cur)) == 0
    ensures var t' := Install(t, PathOf(page, depth), LevelIdx(page, depth), own);
            && WellFormed(t') && TreeGrows(t, t', {own}) && StandsOn(t', page, depth + 1, own)
            && Contents(t') == Contents(t)
  {
    var p, i := PathOf(page, depth), LevelIdx(page, depth);
    var t' := Install(t, p, i, own);
    LoadLink(t, page, depth, cur);
    LevelIdxBound(page, depth);
    InstallKeepsShape(t, p, i, own);
    forall k ensures RawAt(t', k) == RawAt(t, k) {
      InstallKeepsWords(t, p, i, own, k);
    }
    SameWordsSameContents(t, t');
  }

  lemma WriteLeaf(t: Tree, page: nat, value: Addr)
    requires WellFormed(t) && LeafPath(page) in t.at && (value == 0 || Aligned(value))
    ensures var t' := StoreLeaf(t, LeafPath(page), LeafIdx(page), Tag(value));
            WellFormed(t') && TreeGrows(t, t', {}) && Contents(t') == Put(Contents(t), Key(page), value)
  {
    StoreLeafContents(t, page, value);
  }

  /** Loading a leaf slot, or finding a link missing, reads the mapping. */
  lemma LoadReadsContents(t: Tree, page: nat, depth: nat, cur: Addr)
    requires WellFormed(t) && StandsOn(t, page, depth, cur)
    ensures depth == LEVELS - 1 ==>
              Untag(Load(t.nodes, SlotOn(page, depth, cur))) == Get(Contents(t), Key(page))
    ensures depth < LEVELS - 1 && Load(t.nodes, SlotOn(page, depth, cur)) == 0 ==> Key(page) !in Contents(t)
  {
    ContentsAt(t, page);
    LeafWordTagged(t, page);
    RawIsLeafWord(t, page);
    if depth < LEVELS - 1 && Load(t.nodes, SlotOn(page, depth, cur)) == 0 {
      LoadLink(t, page, depth, cur);
      MissingLink(t, page, depth + 1);
      KeyOfSmall(Key(page));
      PathIdentifiesKey(page, Key(page));
    }
  }
}
