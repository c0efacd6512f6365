/** The lock-free trie: any number of threads run insert_leaf, clear_leaf and
    lookup_page_with_slot, one atomic load, store or compare-and-swap at a time. */
module ConcurrentTrie {
  import opened Radix
  import opened AtomicMap
  import opened TrieHeap

  /** Where a thread stands inside an operation. `cur` is the node reached so far. */
  datatype Pc =
    | Outside
    | Descend(op: Op, depth: nat, cur: Addr)                                // about to load a link
    | NeedNode(op: Op, depth: nat, cur: Addr)                               // link was empty: about to allocate
    | TryCas(op: Op, depth: nat, cur: Addr, own: Addr)                      // about to compare-and-swap
    | LostCas(op: Op, depth: nat, cur: Addr, own: Addr, winner: Addr)       // about to delete its node
    | AtLeaf(op: Op, cur: Addr)                                             // about to touch the leaf slot
    | Leaving(op: Op, result: Result, leaf: Slot)                           // about to return

  datatype Machine = Machine(tree: Tree, pcs: map<nat, Pc>)

  /** What the environment decides: which operation to call, what the allocator returns. */
  datatype Choice = Go | Call(op: Op) | Heap(addr: Addr)

  datatype Label = Label(thread: nat, choice: Choice)

  function PcOf(s: Machine, thread: nat): Pc {
    if thread in s.pcs then s.pcs[thread] else Outside
  }

  predicate ValidOp(op: Op) {
    op.Insert? ==> Aligned(op.value)
  }

  const NOWHERE := Slot(0, 0)

  predicate Allowed(t: Tree, pc: Pc, c: Choice) {
    match pc
    case Outside => c.Call? && ValidOp(c.op)
    case NeedNode(_, _, _) => c.Heap? && (c.addr == 0 || (Aligned(c.addr) && c.addr !in t.nodes))
    case _ => c.Go?
  }

  /** The program point on arriving at a node of the given depth. */
  function Arrive(op: Op, depth: nat, cur: Addr): Pc {
    if depth == LEVELS - 1 then AtLeaf(op, cur) else Descend(op, depth, cur)
  }

  /** The position recorded for a node that is linked into a slot. */
  function PositionBelow(op: Op, depth: nat): Path {
    if depth < LEVELS then PathOf(op.page, depth + 1) else Top
  }

  /** The word the next step of a thread loads. */
  function Loaded(t: Tree, pc: Pc): nat {
    match pc
    case Descend(op, depth, cur) => Load(t.nodes, SlotOn(op.page, depth, cur))
    case TryCas(op, depth, cur, _) => Load(t.nodes, SlotOn(op.page, depth, cur))
    case AtLeaf(op, cur) => Load(t.nodes, SlotOn(op.page, LEVELS - 1, cur))
    case _ => 0
  }

  /** Where one atomic step takes the thread. */
  function PcAfter(t: Tree, pc: Pc, c: Choice): Pc
    requires Allowed(t, pc, c)
  {
    var word := Loaded(t, pc);
    match pc
    case Outside => Arrive(c.op, 0, t.root)
    case Descend(op, depth, cur) =>
      if word != 0 then Arrive(op, depth + 1, word)
      else (match op
            case Insert(_, _) => NeedNode(op, depth, cur)
            case Clear(_) => Leaving(op, Cleared, NOWHERE)
            case Lookup(_) => Leaving(op, Found(0), NOWHERE))
    case NeedNode(op, depth, cur) =>
      if c.addr == 0 then Leaving(op, Dropped, NOWHERE) else TryCas(op, depth, cur, c.addr)
    case TryCas(op, depth, cur, own) =>
      if word == 0 then Arrive(op, depth + 1, own) else LostCas(op, depth, cur, own, word)
    case LostCas(op, depth, _, _, winner) => Arrive(op, depth + 1, winner)
    case AtLeaf(op, cur) =>
      (match op
       case Insert(_, _) => Leaving(op, Stored, NOWHERE)
       case Clear(_) => Leaving(op, Cleared, NOWHERE)
       case Lookup(_) =>
         Leaving(op, Found(Untag(word)), if word == 0 then NOWHERE else SlotOn(op.page, LEVELS - 1, cur)))
    case Leaving(_, _, _) => Outside
  }

  /** What the same step does to the shared memory. */
  function TreeAfter(t: Tree, pc: Pc, c: Choice): Tree
    requires Allowed(t, pc, c)
  {
    match pc
    case NeedNode(_, _, _) => if c.addr == 0 then t else WithNode(t, c.addr)
    case TryCas(op, depth, cur, own) =>
      if Loaded(t, pc) != 0 then t
      else t.(nodes := Store(t.nodes, SlotOn(op.page, depth, cur), own), at := t.at[PositionBelow(op, depth) := own])
    case LostCas(_, _, _, own, _) => WithoutNode(t, own)
    case AtLeaf(op, cur) =>
      (match op
       case Insert(_, value) => t.(nodes := Store(t.nodes, SlotOn(op.page, LEVELS - 1, cur), Tag(value)))
       case Clear(_) => t.(nodes := Store(t.nodes, SlotOn(op.page, LEVELS - 1, cur), 0))
       case Lookup(_) => t)
    case _ => t
  }

  predicate Enabled(s: Machine, l: Label) {
    Allowed(s.tree, PcOf(s, l.thread), l.choice)
  }

  /** One atomic step of the labelled thread. */
  function Act(s: Machine, l: Label): Machine
    requires Enabled(s, l)
  {
    var pc := PcOf(s, l.thread);
    Machine(TreeAfter(s.tree, pc, l.choice), s.pcs[l.thread := PcAfter(s.tree, pc, l.choice)])
  }

  ghost predicate StepsAt(run: seq<Machine>, labels: seq<Label>, i: nat) {
    i + 1 < |run| && i < |labels| && Enabled(run[i], labels[i]) && run[i + 1] == Act(run[i], labels[i])
  }

  /** A run: from the empty trie, each state follows from the one before by a labelled step. */
  ghost predicate IsRun(run: seq<Machine>, labels: seq<Label>) {
    && |run| == |labels| + 1 && Init(run[0])
    && forall i {:trigger StepsAt(run, labels, i)} :: 0 <= i < |labels| ==> StepsAt(run, labels, i)
  }

  // ---- the invariant ----

  ghost predicate Sound(t: Tree, pc: Pc) {
    match pc
    case Outside => true
    case Descend(op, depth, cur) => ValidOp(op) && depth < LEVELS - 1 && StandsOn(t, op.page, depth, cur)
    case NeedNode(op, depth, cur) => op.Insert? && ValidOp(op) && depth < LEVELS - 1 && StandsOn(t, op.page, depth, cur)
    case TryCas(op, depth, cur, own) =>
      op.Insert? && ValidOp(op) && depth < LEVELS - 1 && StandsOn(t, op.page, depth, cur) && Private(t, own)
    case LostCas(op, depth, cur, own, winner) =>
      op.Insert? && ValidOp(op) && depth < LEVELS - 1 && StandsOn(t, op.page, depth + 1, winner) && Private(t, own)
    case AtLeaf(op, cur) => ValidOp(op) && StandsOn(t, op.page, LEVELS - 1, cur)
    case Leaving(op, result, leaf) =>
      op.Lookup? && result.Found? && result.value != 0 ==> LeafPath(op.page) in t.at && leaf == LeafSlot(t, op.page)
  }

  /** The node a thread has allocated and not yet linked or deleted. */
  function Held(pc: Pc): set<Addr> {
    if pc.TryCas? || pc.LostCas? then {pc.own} else {}
  }

  predicate Apart(s: Machine, t: nat, u: nat) {
    t in s.pcs && u in s.pcs && (t != u ==> Held(s.pcs[t]) !! Held(s.pcs[u]))
  }

  /** A node is linked into the tree or held by the thread that allocated it. */
  predicate Accounted(s: Machine, n: Addr) {
    (exists p :: p in s.tree.at && s.tree.at[p] == n) || (exists t :: t in s.pcs && n in Held(s.pcs[t]))
  }

  ghost predicate Inv(s: Machine) {
    && WellFormed(s.tree)
    && (forall t {:trigger s.pcs[t]} :: t in s.pcs ==> Sound(s.tree, s.pcs[t]))
    && (forall t, u {:trigger Apart(s, t, u)} :: t in s.pcs && u in s.pcs ==> Apart(s, t, u))
    && (forall n {:trigger Accounted(s, n)} :: n in s.tree.nodes ==> Accounted(s, n))
  }

  ghost predicate Init(s: Machine) {
    && s.pcs == map[] && Aligned(s.tree.root)
    && s.tree.nodes == map[s.tree.root := EmptyNode()] && s.tree.at == map[Top := s.tree.root]
  }

  // ---- every step keeps the invariant ----

  lemma OthersStaySound(t: Tree, t': Tree, own: set<Addr>, pc: Pc)
    requires TreeGrows(t, t', own) && Sound(t, pc)
    requires Held(pc) !! own
    ensures Sound(t', pc)
  {
    if pc.TryCas? || pc.LostCas? {
      assert pc.own in Held(pc);
      assert Private(t', pc.own);
    }
  }

  /** What one step must achieve: the shape is kept, no other thread is disturbed, the thread's new
      program point is sound, and the mapping changes only when an operation completes, exactly by
      that operation's effect. */
  ghost predicate StepOk(t: Tree, pc: Pc, c: Choice, t': Tree, pc': Pc) {
    && WellFormed(t') && TreeGrows(t, t', Held(pc)) && Sound(t', pc')
    && if pc'.Leaving? then !pc.Outside? && !pc.Leaving? && pc.op == pc'.op
                            && TakesEffect(Contents(t), pc.op, c == Heap(0), Contents(t'), pc'.result)
       else Contents(t') == Contents(t) && c != Heap(0)
  }

  lemma DescendStep(t: Tree, pc: Pc, c: Choice)
    requires WellFormed(t) && Sound(t, pc) && Allowed(t, pc, c) && pc.Descend?
    ensures StepOk(t, pc, c, TreeAfter(t, pc, c), PcAfter(t, pc, c))
  {
    LoadLink(t, pc.op.page, pc.depth, pc.cur);
    LoadReadsContents(t, pc.op.page, pc.depth, pc.cur);
  }

  lemma AllocStep(t: Tree, pc: Pc, c: Choice)
    requires WellFormed(t) && Sound(t, pc) && Allowed(t, pc, c) && pc.NeedNode?
    ensures StepOk(t, pc, c, TreeAfter(t, pc, c), PcAfter(t, pc, c))
  {
    if c.addr != 0 {
      AllocNode(t, c.addr);
    }
  }

  lemma CasStep(t: Tree, pc: Pc, c: Choice)
    requires WellFormed(t) && Sound(t, pc) && Allowed(t, pc, c) && pc.TryCas?
    ensures StepOk(t, pc, c, TreeAfter(t, pc, c), PcAfter(t, pc, c))
  {
    LoadLink(t, pc.op.page, pc.depth, pc.cur);
    if Loaded(t, pc) == 0 {
      LinkNode(t, pc.op.page, pc.depth, pc.cur, pc.own);
    }
  }

  lemma LeafStep(t: Tree, pc: Pc, c: Choice)
    requires WellFormed(t) && Sound(t, pc) && Allowed(t, pc, c) && pc.AtLeaf?
    ensures StepOk(t, pc, c, TreeAfter(t, pc, c), PcAfter(t, pc, c))
  {
    if pc.op.Lookup? {
      LoadReadsContents(t, pc.op.page, LEVELS - 1, pc.cur);
    } else {
      WriteLeaf(t, pc.op.page, if pc.op.Insert? then pc.op.value else 0);
    }
  }

  lemma TreeStep(t: Tree, pc: Pc, c: Choice)
    requires WellFormed(t) && Sound(t, pc) && Allowed(t, pc, c)
    ensures StepOk(t, pc, c, TreeAfter(t, pc, c), PcAfter(t, pc, c))
  {
    match pc
    case Outside =>
    case Descend(_, _, _) => DescendStep(t, pc, c);
    case NeedNode(_, _, _) => AllocStep(t, pc, c);
    case TryCas(_, _, _, _) => CasStep(t, pc, c);
    case LostCas(_, _, _, own, _) => FreeNode(t, own);
    case AtLeaf(_, _) => LeafStep(t, pc, c);
    case Leaving(_, _, _) =>
  }

  /** No node is lost: linking moves it into the tree, deleting removes it from memory. */
  lemma NodeStep(t: Tree, pc: Pc, c: Choice, n: Addr)
    requires WellFormed(t) && Sound(t, pc) && Allowed(t, pc, c)
    requires n in TreeAfter(t, pc, c).nodes && n !in Held(PcAfter(t, pc, c))
    ensures n in t.nodes
    ensures n in Held(pc) ==> exists p :: p in TreeAfter(t, pc, c).at && TreeAfter(t, pc, c).at[p] == n
  {
    if n in Held(pc) {
      assert PositionBelow(pc.op, pc.depth) in TreeAfter(t, pc, c).at;
    }
  }

  lemma HeldApart(s: Machine, l: Label, u: nat)
    requires Inv(s) && Enabled(s, l) && u in s.pcs && u != l.thread
    ensures Held(PcOf(s, l.thread)) !! Held(s.pcs[u])
    ensures Held(PcAfter(s.tree, PcOf(s, l.thread), l.choice)) !! Held(s.pcs[u])
  {
    assert Sound(s.tree, s.pcs[u]);
    if l.thread in s.pcs {
      assert Apart(s, l.thread, u);
    }
  }

  lemma NodesAccounted(s: Machine, l: Label, n: Addr)
    requires Inv(s) && Enabled(s, l) && n in Act(s, l).tree.nodes
    ensures Accounted(Act(s, l), n)
  {
    var s', pc := Act(s, l), PcOf(s, l.thread);
    TreeStep(s.tree, pc, l.choice);
    if n in Held(PcAfter(s.tree, pc, l.choice)) {
      assert n in Held(s'.pcs[l.thread]);
    } else {
      NodeStep(s.tree, pc, l.choice, n);
      assert Accounted(s, n);
      if p :| p in s.tree.at && s.tree.at[p] == n {
        assert s'.tree.at[p] == n;
      } else {
        var t :| t in s.pcs && n in Held(s.pcs[t]);
        assert t != l.thread ==> n in Held(s'.pcs[t]);
      }
    }
  }

  lemma StepKeepsInv(s: Machine, l: Label)
    requires Inv(s) && Enabled(s, l)
    ensures Inv(Act(s, l))
  {
    var s' := Act(s, l);
    TreeStep(s.tree, PcOf(s, l.thread), l.choice);
    forall u | u in s'.pcs ensures Sound(s'.tree, s'.pcs[u]) {
      if u != l.thread {
        HeldApart(s, l, u);
        OthersStaySound(s.tree, s'.tree, Held(PcOf(s, l.thread)), s.pcs[u]);
      }
    }
    forall t, u | t in s'.pcs && u in s'.pcs ensures Apart(s', t, u) {
      if t != u && t != l.thread && u != l.thread {
        assert Apart(s, t, u);
      } else if t != u && t == l.thread {
        HeldApart(s, l, u);
      } else if t != u {
        HeldApart(s, l, t);
      }
    }
    forall n | n in s'.tree.nodes ensures Accounted(s', n) {
      NodesAccounted(s, l, n);
    }
  }

  // ---- refinement ----

  function PhaseFor(pc: Pc): Phase {
    match pc
    case Outside => Idle
    case Leaving(op, result, _) => Done(op, result)
    case _ => Pending(pc.op)
  }

  /** The atomic map a trie state stands for. */
  function Abstract(s: Machine): Atom {
    Atom(Contents(s.tree), map t | t in s.pcs :: PhaseFor(s.pcs[t]))
  }

  /** Heap(0) is the allocator's refusal. */
  function MoveOf(l: Label): Move {
    Move(l.thread, l.choice == Heap(0))
  }

  /** Calling and returning are visible; everything in between is not. */
  lemma PhaseStep(t: Tree, pc: Pc, c: Choice)
    requires Allowed(t, pc, c) && !PcAfter(t, pc, c).Leaving?
    ensures PhaseFor(PcAfter(t, pc, c)) == match pc { case Outside => Pending(c.op)
                                                      case Leaving(_, _, _) => Idle
                                                      case _ => Pending(pc.op) }
  {
  }

  /** Every concrete step is a step of the atomic map by the same thread, or invisible. */
  lemma StepRefines(s: Machine, l: Label)
    requires Inv(s) && Enabled(s, l)
    ensures Next(Abstract(s), MoveOf(l), Abstract(Act(s, l)))
  {
    var s' := Act(s, l);
    var a, a' := Abstract(s), Abstract(s');
    var pc := PcOf(s, l.thread);
    TreeStep(s.tree, pc, l.choice);
    if !PcAfter(s.tree, pc, l.choice).Leaving? {
      PhaseStep(s.tree, pc, l.choice);
    }
    forall u ensures PhaseOf(a, u) == PhaseFor(PcOf(s, u)) && PhaseOf(a', u) == PhaseFor(PcOf(s', u)) {}
  }

  lemma InitHolds(s: Machine)
    requires Init(s)
    ensures Inv(s) && Contents(s.tree) == map[]
  {
    var t := s.tree;
    forall p, i | p in t.at && 0 <= i < FANOUT && p.Depth() < LEVELS - 1 ensures Linked(t, p, i) {}
    forall p, i | p in t.at && 0 <= i < FANOUT && p.Depth() == LEVELS - 1 ensures LeafWord(t, p, i) {}
    forall p, q | p in t.at && q in t.at ensures OnePosition(t, p, q) {}
    forall n | n in t.nodes ensures Accounted(s, n) {
      assert t.at[Top] == n;
    }
    forall k ensures RawAt(t, k) == 0 {
      RawIsLeafWord(t, k);
    }
  }

  /** The invariant holds in every state of every run. */
  lemma {:induction false} RunKeepsInv(run: seq<Machine>, labels: seq<Label>, i: nat)
    requires IsRun(run, labels) && i < |run|
    ensures Inv(run[i])
  {
    if i == 0 {
      InitHolds(run[0]);
    } else {
      RunKeepsInv(run, labels, i - 1);
      assert StepsAt(run, labels, i - 1);
      StepKeepsInv(run[i - 1], labels[i - 1]);
    }
  }

  /** Linearizability: reading each state of any run as a map gives a run of the atomic map, in
      which every operation takes effect once, between its call and its return, and an insertion is dropped
      exactly when the allocator refuses it memory. */
  lemma Linearizable(run: seq<Machine>, labels: seq<Label>)
    requires IsRun(run, labels)
    ensures AtomicMap.IsRun(seq(|run|, i requires 0 <= i < |run| => Abstract(run[i])),
                            seq(|labels|, i requires 0 <= i < |labels| => MoveOf(labels[i])))
  {
    InitHolds(run[0]);
    forall i | 0 <= i < |labels|
      ensures Next(Abstract(run[i]), MoveOf(labels[i]), Abstract(run[i + 1]))
    {
      RunKeepsInv(run, labels, i);
      assert StepsAt(run, labels, i);
      StepRefines(run[i], labels[i]);
    }
  }

  // ---- every operation completes, and insertions store ----

  /** How many steps of its own a thread still needs inside its operation, whatever others do: at most four for each
      level still to descend, when its node loses every race, and one at the leaf. */
  function ToGo(pc: Pc): int {
    match pc
    case Outside => 0
    case Descend(_, depth, _) => 4 * (LEVELS - 1 - depth) + 1
    case NeedNode(_, depth, _) => 4 * (LEVELS - 1 - depth)
    case TryCas(_, depth, _, _) => 4 * (LEVELS - 1 - depth) - 1
    case LostCas(_, depth, _, _, _) => 4 * (LEVELS - 1 - depth) - 2
    case AtLeaf(_, _) => 1
    case Leaving(_, _, _) => 0
  }

  predicate Inside(pc: Pc) {
    !pc.Outside? && !pc.Leaving?
  }

  lemma StepsCount(t: Tree, pc: Pc, c: Choice)
    requires Sound(t, pc) && Allowed(t, pc, c)
    ensures Inside(pc) ==> 0 < ToGo(pc) && ToGo(PcAfter(t, pc, c)) < ToGo(pc)
    ensures pc.Outside? ==> ToGo(PcAfter(t, pc, c)) <= 4 * (LEVELS - 1) + 1
  {
  }

  /** How many steps the thread takes from state i to state k. */
  function Steps(labels: seq<Label>, thread: nat, i: nat, k: nat): nat {
    if k <= i || k > |labels| then 0
    else Steps(labels, thread, i, k - 1) + if labels[k - 1].thread == thread then 1 else 0
  }

  lemma {:induction false} StepsBound(run: seq<Machine>, labels: seq<Label>, j: nat, k: nat, thread: nat)
    requires IsRun(run, labels) && j < k < |run|
    requires labels[j].thread == thread && PcOf(run[j], thread).Outside?
    requires forall x :: j < x <= k ==> Inside(PcOf(run[x], thread))
    ensures Steps(labels, thread, j + 1, k) + ToGo(PcOf(run[k], thread)) <= 4 * (LEVELS - 1) + 1
  {
    assert StepsAt(run, labels, k - 1);
    RunKeepsInv(run, labels, k - 1);
    assert Sound(run[k - 1].tree, PcOf(run[k - 1], thread));
    if labels[k - 1].thread == thread {
      StepsCount(run[k - 1].tree, PcOf(run[k - 1], thread), labels[k - 1].choice);
    }
    if j + 1 < k {
      StepsBound(run, labels, j, k - 1, thread);
    }
  }

  /** Wait-freedom: an operation that has not taken effect by state k has taken at most 4 * (LEVELS - 1) steps of its
      own since its call at j, however the other threads run. */
  lemma WaitFree(run: seq<Machine>, labels: seq<Label>, j: nat, k: nat, thread: nat)
    requires IsRun(run, labels) && j < k < |run|
    requires labels[j].thread == thread && PcOf(run[j], thread).Outside?
    requires forall x :: j < x <= k ==> Inside(PcOf(run[x], thread))
    ensures Steps(labels, thread, j + 1, k) <= 4 * (LEVELS - 1)
  {
    StepsBound(run, labels, j, k, thread);
    RunKeepsInv(run, labels, k);
    assert Sound(run[k].tree, PcOf(run[k], thread));
  }

  /** Between its call and its effect a thread works on the operation it was called with. */
  lemma {:induction false} OpStays(run: seq<Machine>, labels: seq<Label>, j: nat, k: nat, thread: nat)
    requires IsRun(run, labels) && j < k < |run|
    requires PcOf(run[j], thread).Outside? && labels[j].thread == thread && labels[j].choice.Call?
    requires forall x :: j < x < k ==> Inside(PcOf(run[x], thread))
    ensures !PcOf(run[k], thread).Outside? && PcOf(run[k], thread).op == labels[j].choice.op
  {
    assert StepsAt(run, labels, k - 1);
    if j + 1 < k {
      OpStays(run, labels, j, k - 1, thread);
    }
  }

  /** In every run an operation called at j takes effect once, at the step to state k, on what the map holds then. An
      insertion is dropped exactly when that step is the allocator's refusal; otherwise it stores its value, also if
      its node lost a race on the way. */
  lemma EffectOfCall(run: seq<Machine>, labels: seq<Label>, j: nat, k: nat, thread: nat)
    requires IsRun(run, labels) && j + 1 < k < |run|
    requires PcOf(run[j], thread).Outside? && labels[j].thread == thread && labels[j].choice.Call?
    requires forall x :: j < x < k ==> Inside(PcOf(run[x], thread))
    requires PcOf(run[k], thread).Leaving?
    ensures labels[k - 1].thread == thread
    ensures TakesEffect(Contents(run[k - 1].tree), labels[j].choice.op, labels[k - 1].choice == Heap(0),
                        Contents(run[k].tree), PcOf(run[k], thread).result)
  {
    OpStays(run, labels, j, k, thread);
    OpStays(run, labels, j, k - 1, thread);
    RunKeepsInv(run, labels, k - 1);
    assert StepsAt(run, labels, k - 1);
    assert Inside(PcOf(run[k - 1], thread));
    TreeStep(run[k - 1].tree, PcOf(run[k - 1], labels[k - 1].thread), labels[k - 1].choice);
  }

  /** An insertion whose thread is never refused memory stores its value. */
  lemma InsertStores(run: seq<Machine>, labels: seq<Label>, j: nat, k: nat, thread: nat)
    requires IsRun(run, labels) && j + 1 < k < |run|
    requires PcOf(run[j], thread).Outside? && labels[j].thread == thread
    requires labels[j].choice.Call? && labels[j].choice.op.Insert?
    requires forall x :: j < x < k ==> Inside(PcOf(run[x], thread)) && labels[x] != Label(thread, Heap(0))
    requires PcOf(run[k], thread).Leaving?
    ensures PcOf(run[k], thread).result == Stored
    ensures var op := labels[j].choice.op; Get(Contents(run[k].tree), Key(op.page)) == op.value
  {
    EffectOfCall(run, labels, j, k, thread);
    RunKeepsInv(run, labels, k - 1);
    OpStays(run, labels, j, k - 1, thread);
    assert Inside(PcOf(run[k - 1], thread)) && Sound(run[k - 1].tree, PcOf(run[k - 1], thread));
  }

  // ---- what holds across a run ----

  /** Installed nodes never move and are never freed. */
  lemma {:induction false} PositionsPersist(run: seq<Machine>, labels: seq<Label>, i: nat, j: nat, p: Path)
    requires IsRun(run, labels) && i <= j < |run| && p in run[i].tree.at
    ensures p in run[j].tree.at && run[j].tree.at[p] == run[i].tree.at[p]
  {
    if i < j {
      PositionsPersist(run, labels, i, j - 1, p);
      RunKeepsInv(run, labels, j - 1);
      assert StepsAt(run, labels, j - 1);
      var s, l := run[j - 1], labels[j - 1];
      TreeStep(s.tree, PcOf(s, l.thread), l.choice);
    }
  }

  /** Internal slots are written at most once: a link, once seen, is there for good. */
  lemma LinksWriteOnce(run: seq<Machine>, labels: seq<Label>, i: nat, j: nat, p: Path, idx: nat)
    requires IsRun(run, labels) && i <= j < |run|
    requires p in run[i].tree.at && p.Depth() < LEVELS - 1 && idx < FANOUT
    requires Load(run[i].tree.nodes, Slot(run[i].tree.at[p], idx)) != 0
    ensures Load(run[j].tree.nodes, Slot(run[i].tree.at[p], idx))
         == Load(run[i].tree.nodes, Slot(run[i].tree.at[p], idx))
  {
    RunKeepsInv(run, labels, i);
    RunKeepsInv(run, labels, j);
    assert Linked(run[i].tree, p, idx);
    PositionsPersist(run, labels, i, j, p);
    PositionsPersist(run, labels, i, j, Radix.Step(p, idx));
    assert Linked(run[j].tree, p, idx);
  }

  /** The slot a lookup hands to the cache stays valid for ever: re-reading it at any later time
      is reading the mapping at the page's key at that time. */
  lemma LeafSlotTracksKey(run: seq<Machine>, labels: seq<Label>, i: nat, j: nat, thread: nat)
    requires IsRun(run, labels) && i <= j < |run|
    requires var pc := PcOf(run[i], thread); pc.Leaving? && pc.op.Lookup? && pc.result.Found? && pc.result.value != 0
    ensures var pc := PcOf(run[i], thread);
            Load(run[j].tree.nodes, pc.leaf) == Tag(Get(Contents(run[j].tree), Key(pc.op.page)))
  {
    var pc := PcOf(run[i], thread);
    RunKeepsInv(run, labels, i);
    RunKeepsInv(run, labels, j);
    assert Sound(run[i].tree, pc);
    PositionsPersist(run, labels, i, j, LeafPath(pc.op.page));
    RawIsLeafWord(run[j].tree, pc.op.page);
    ContentsAt(run[j].tree, pc.op.page);
  }

  /** The node whose memory a thread's next step touches; zero for none. */
  function Touches(pc: Pc): Addr {
    match pc
    case Descend(_, _, cur) => cur
    case TryCas(_, _, cur, _) => cur
    case LostCas(_, _, _, own, _) => own
    case AtLeaf(_, cur) => cur
    case _ => 0
  }

  /** No thread ever reads, writes or deletes a node that is not allocated. */
  lemma MemorySafe(run: seq<Machine>, labels: seq<Label>, i: nat, thread: nat)
    requires IsRun(run, labels) && i < |run|
    ensures Touches(PcOf(run[i], thread)) == 0 || Touches(PcOf(run[i], thread)) in run[i].tree.nodes
  {
    RunKeepsInv(run, labels, i);
    assert Sound(run[i].tree, PcOf(run[i], thread));
  }

  /** A node that was allocated for a link but not installed, in particular the one a thread
      brought to a lost compare-and-swap, cannot be reached from the root. */
  lemma UnlinkedUnreachable(run: seq<Machine>, labels: seq<Label>, i: nat, thread: nat, page: nat, depth: nat)
    requires IsRun(run, labels) && i < |run| && depth < LEVELS
    ensures Walk(run[i].tree.nodes, run[i].tree.root, PathOf(page, depth)) !in Held(PcOf(run[i], thread))
  {
    RunKeepsInv(run, labels, i);
    assert Sound(run[i].tree, PcOf(run[i], thread));
    WalkIsPosition(run[i].tree, page, depth);
  }

  /** Once no operation is in progress, the allocated nodes are exactly those hanging in the tree:
      nothing leaks, and counting and teardown meet all of them. */
  lemma QuiescentHasNoLeaks(run: seq<Machine>, labels: seq<Label>, i: nat)
    requires IsRun(run, labels) && i < |run|
    requires forall t :: t in run[i].pcs ==> run[i].pcs[t].Outside?
    ensures WellFormed(run[i].tree) && run[i].tree.nodes.Keys == run[i].tree.at.Values
  {
    var t := run[i].tree;
    RunKeepsInv(run, labels, i);
    forall n | n in t.nodes ensures n in t.at.Values {
      assert Accounted(run[i], n);
    }
    forall n | n in t.at.Values ensures n in t.nodes {
      var p :| p in t.at && t.at[p] == n;
    }
  }

  // ---- a lost race in a run ----

  /** There is always an address that is not in use. */
  lemma {:induction false} BoundOf(addrs: set<Addr>) returns (b: nat)
    ensures forall a :: a in addrs ==> a < b
  {
    if addrs == {} {
      b := 0;
    } else {
      var a :| a in addrs;
      var c := BoundOf(addrs - {a});
      b := if a < c then c else a + 1;
      forall x | x in addrs ensures x < b {
        assert x == a || x in addrs - {a};
      }
    }
  }

  lemma FreshAddress(nodes: Nodes) returns (a: Addr)
    ensures Aligned(a) && a !in nodes
  {
    var b := BoundOf(nodes.Keys);
    a := 2 * b + 2;
  }

  lemma Extend(run: seq<Machine>, labels: seq<Label>, l: Label) returns (run': seq<Machine>, labels': seq<Label>)
    requires IsRun(run, labels) && Enabled(run[|run| - 1], l)
    ensures run' == run + [Act(run[|run| - 1], l)] && labels' == labels + [l] && IsRun(run', labels')
  {
    run', labels' := run + [Act(run[|run| - 1], l)], labels + [l];
    forall i: nat | i < |labels'| ensures StepsAt(run', labels', i) {
      assert i < |labels| ==> StepsAt(run, labels, i);
    }
  }

  /** The thread runs alone, with memory, until its operation has taken effect. */
  lemma {:induction false} RunToEffect(run0: seq<Machine>, labels0: seq<Label>, thread: nat)
    returns (run: seq<Machine>, labels: seq<Label>)
    requires IsRun(run0, labels0) && Inside(PcOf(run0[|run0| - 1], thread))
    ensures IsRun(run, labels) && run0 <= run && labels0 <= labels && |run0| < |run|
    ensures PcOf(run[|run| - 1], thread).Leaving?
    ensures forall x :: |run0| <= x < |run| - 1 ==> Inside(PcOf(run[x], thread))
    ensures forall x :: |labels0| <= x < |labels| ==> labels[x].thread == thread && labels[x].choice != Heap(0)
    decreases ToGo(PcOf(run0[|run0| - 1], thread))
  {
    var s := run0[|run0| - 1];
    var pc := PcOf(s, thread);
    RunKeepsInv(run0, labels0, |run0| - 1);
    assert Sound(s.tree, pc);
    var c := Go;
    if pc.NeedNode? {
      var a := FreshAddress(s.tree.nodes);
      c := Heap(a);
    }
    StepsCount(s.tree, pc, c);
    run, labels := Extend(run0, labels0, Label(thread, c));
    assert PcOf(run[|run| - 1], thread) == PcAfter(s.tree, pc, c);
    if !PcOf(run[|run| - 1], thread).Leaving? {
      var run1, labels1 := run, labels;
      run, labels := RunToEffect(run1, labels1, thread);
      assert run[|run0|] == run1[|run0|] && labels[|labels0|] == labels1[|labels0|];
    }
  }

  /** Both threads are about to compare-and-swap their nodes a and b into the root's slot. */
  function AtRace(root: Addr, page: nat, v: Addr, w: Addr, a: Addr, b: Addr): Machine {
    Machine(Tree(map[root := EmptyNode()][a := EmptyNode()][b := EmptyNode()], root, map[Top := root]),
            map[0 := TryCas(Insert(page, v), 0, root, a), 1 := TryCas(Insert(page, w), 0, root, b)])
  }

  /** Both threads have found the root's slot empty. */
  lemma ToEmptySlot(t: Tree, page: nat, v: Addr, w: Addr) returns (run: seq<Machine>, labels: seq<Label>)
    requires LEVELS >= 2 && Aligned(t.root) && Aligned(v) && Aligned(w)
    requires t == Tree(map[t.root := EmptyNode()], t.root, map[Top := t.root])
    ensures IsRun(run, labels) && |run| == 5
    ensures run[4] == Machine(t, map[0 := NeedNode(Insert(page, v), 0, t.root),
                                     1 := NeedNode(Insert(page, w), 0, t.root)])
    ensures PcOf(run[1], 1).Outside? && labels[1] == Label(1, Call(Insert(page, w)))
    ensures Inside(PcOf(run[2], 1)) && Inside(PcOf(run[3], 1)) && labels[2].choice == labels[3].choice == Go
  {
    var ins0, ins1 := Insert(page, v), Insert(page, w);
    LevelIdxBound(page, 0);
    assert Load(t.nodes, SlotOn(page, 0, t.root)) == 0;
    run, labels := [Machine(t, map[])], [];
    run, labels := Extend(run, labels, Label(0, Call(ins0)));
    run, labels := Extend(run, labels, Label(1, Call(ins1)));
    assert run[2] == Machine(t, map[0 := Descend(ins0, 0, t.root), 1 := Descend(ins1, 0, t.root)]);
    run, labels := Extend(run, labels, Label(0, Go));
    assert run[3] == Machine(t, map[0 := NeedNode(ins0, 0, t.root), 1 := Descend(ins1, 0, t.root)]);
    run, labels := Extend(run, labels, Label(1, Go));
  }

  lemma ToRace(root: Addr, page: nat, v: Addr, w: Addr, a: Addr, b: Addr)
    returns (run: seq<Machine>, labels: seq<Label>)
    requires LEVELS >= 2 && Aligned(root) && Aligned(v) && Aligned(w) && Aligned(a) && Aligned(b)
    requires a != root && b != root && a != b
    ensures IsRun(run, labels) && |run| == 7 && run[6] == AtRace(root, page, v, w, a, b)
    ensures PcOf(run[1], 1).Outside? && labels[1] == Label(1, Call(Insert(page, w)))
    ensures forall x :: 2 <= x < |run| ==> Inside(PcOf(run[x], 1))
    ensures forall x :: 2 <= x < |labels| ==> labels[x] != Label(1, Heap(0))
  {
    run, labels := ToEmptySlot(Tree(map[root := EmptyNode()], root, map[Top := root]), page, v, w);
    run, labels := Extend(run, labels, Label(0, Heap(a)));
    assert PcOf(run[5], 1) == NeedNode(Insert(page, w), 0, root);
    run, labels := Extend(run, labels, Label(1, Heap(b)));
  }

  /** Two threads insert into the same empty slot; thread 1 loses the compare-and-swap. */
  lemma LostRace(root: Addr, page: nat, v: Addr, w: Addr) returns (run: seq<Machine>, labels: seq<Label>)
    requires LEVELS >= 2 && Aligned(root) && Aligned(v) && Aligned(w)
    ensures IsRun(run, labels) && PcOf(run[|run| - 1], 1).LostCas? && |run| > 2
    ensures PcOf(run[1], 1).Outside? && labels[1] == Label(1, Call(Insert(page, w)))
    ensures forall x :: 2 <= x < |run| ==> Inside(PcOf(run[x], 1))
    ensures forall x :: 2 <= x < |labels| ==> labels[x] != Label(1, Heap(0))
  {
    var a, b := 2 * root, 4 * root;
    run, labels := ToRace(root, page, v, w, a, b);
    LevelIdxBound(page, 0);
    assert Load(run[6].tree.nodes, SlotOn(page, 0, root)) == 0;
    run, labels := Extend(run, labels, Label(0, Go));
    assert PcOf(run[7], 1) == TryCas(Insert(page, w), 0, root, b);
    assert Load(run[7].tree.nodes, SlotOn(page, 0, root)) == a;
    run, labels := Extend(run, labels, Label(1, Go));
  }

  /** The loser of a race goes on in the winner's node and stores its value. */
  lemma LoserStores(root: Addr, page: nat, v: Addr, w: Addr) returns (run: seq<Machine>, labels: seq<Label>, lost: nat)
    requires LEVELS >= 2 && Aligned(root) && Aligned(v) && Aligned(w)
    ensures IsRun(run, labels) && lost < |run| && PcOf(run[lost], 1).LostCas?
    ensures var last := run[|run| - 1];
            PcOf(last, 1).Leaving? && PcOf(last, 1).result == Stored && Get(Contents(last.tree), Key(page)) == w
  {
    var run0, labels0 := LostRace(root, page, v, w);
    lost := |run0| - 1;
    run, labels := RunToEffect(run0, labels0, 1);
    forall x | 1 < x < |run| - 1 ensures Inside(PcOf(run[x], 1)) && labels[x] != Label(1, Heap(0)) {
      if x < |run0| {
        assert run[x] == run0[x];
      }
      if x < |labels0| {
        assert labels[x] == labels0[x];
      }
    }
    assert run[1] == run0[1] && labels[1] == labels0[1];
    InsertStores(run, labels, 1, |run| - 1, 1);
  }
}
