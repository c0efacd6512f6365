/** The concurrent registry on the real trie: every thread keeps the addresses of leaf slots in its cache and
    descends the trie one atomic access at a time. Every run of this machine, read through its heap, is a run of
    `ConcurrentRegistry`. */
module RegistryOverTrie {
  import opened Platform
  import opened Radix
  import opened AtomicMap
  import opened TrieHeap
  import opened SubSegment
  import opened TlsCache
  import opened CachedLookup
  import Trie = ConcurrentTrie
  import Reg = ConcurrentRegistry

  /** A cached leaf slot. `key` is auxiliary: the page key the slot belongs to. */
  datatype Handle = Handle(slot: Slot, key: nat)

  /** A thread's own state: its cache, where it stands in the registry's code, and the slot its last traversal
      of the trie returned. Where it stands inside the trie is in the trie's state. */
  datatype Local = Local(cache: seq<Entry<Handle>>, pc: Reg.Pc, leaf: Handle)

  datatype State = State(desc: Descriptors, trie: Trie.Machine, life: map<nat, Reg.Life>, locals: map<nat, Local>,
                         clean: bool)

  datatype Choice = InRegistry(choice: Reg.Choice) | InTrie(step: Trie.Choice)

  datatype Label = Label(thread: nat, choice: Choice)

  const NO_HANDLE := Handle(Slot(0, 0), 0)

  function LocalOf(s: State, t: nat): Local {
    if t in s.locals then s.locals[t] else Local(AllVacant(), Reg.Out, NO_HANDLE)
  }

  /** The trie operation that the registry's code calls next, if that is what it does. */
  datatype Call = None | Some(op: Op)

  function NextCall(desc: Descriptors, l: Local): Call {
    match l.pc
    case Inserting(seg, page) => if page < Reg.LastPage(desc, seg) then Some(Insert(page, seg)) else None
    case Clearing(seg, page) => if page < Reg.LastPage(desc, seg) then Some(Clear(page)) else None
    case Looking(addr, _, _) =>
      if FirstCover(l.cache, addr, 0) == |l.cache| then Some(Lookup(PageOf(addr))) else None
    case _ => None
  }

  // ---- the registry this machine stands for ----

  function AbsEntry(e: Entry<Handle>): Entry<nat> {
    match e
    case Vacant => Vacant
    case Used(base, end, seg, leaf) => Used(base, end, seg, leaf.key)
  }

  function AbsCache(es: seq<Entry<Handle>>): Cached {
    seq(|es|, i requires 0 <= i < |es| => AbsEntry(es[i]))
  }

  /** An operation whose atomic effect is over counts as done, before it has returned. */
  function AbsPc(pc: Reg.Pc, at: Trie.Pc): Reg.Pc {
    if !at.Leaving? then pc
    else match pc
         case Inserting(seg, page) => Reg.Inserting(seg, page + 1)
         case Clearing(seg, page) => Reg.Clearing(seg, page + 1)
         case Looking(addr, goal, gone) =>
           Reg.Settling(addr, goal, gone, Fetched(if at.result.Found? then at.result.value else 0))
         case _ => pc
  }

  function AbsThread(l: Local, at: Trie.Pc): Reg.Thread {
    Reg.Thread(AbsCache(l.cache), AbsPc(l.pc, at))
  }

  function Abs(s: State): Reg.Registry {
    Reg.Registry(s.desc, Contents(s.trie.tree), s.life,
                 map t | t in s.locals :: AbsThread(s.locals[t], Trie.PcOf(s.trie, t)), s.clean)
  }

  // ---- steps ----

  predicate Enabled(s: State, l: Label) {
    var at, mine := Trie.PcOf(s.trie, l.thread), LocalOf(s, l.thread);
    if !at.Outside? || NextCall(s.desc, mine).Some? then
      && l.choice.InTrie? && Trie.Enabled(s.trie, Trie.Label(l.thread, l.choice.step))
      && (at.Outside? ==> l.choice.step == Trie.Call(NextCall(s.desc, mine).op))
    else l.choice.InRegistry? && Reg.Enabled(Abs(s), Reg.Label(l.thread, l.choice.choice))
  }

  /** What a thread does with the result of a trie operation. */
  function Returned(l: Local, at: Trie.Pc): Local
    requires at.Leaving?
  {
    match l.pc
    case Looking(addr, _, _) => l.(pc := AbsPc(l.pc, at), leaf := Handle(at.leaf, Key(PageOf(addr))))
    case _ => l.(pc := AbsPc(l.pc, at))
  }

  /** A lookup that finds a covering entry reads the entry's slot and nothing else. */
  function ProbeCached(nodes: Nodes, es: seq<Entry<Handle>>, addr: nat): Probe {
    var i := FirstCover(es, addr, 0);
    if i < |es| && Load(nodes, es[i].leaf.slot) == Tag(es[i].seg) then Hit(i) else Stale(i)
  }

  function SettleCache(l: Local, addr: nat, p: Probe): seq<Entry<Handle>> {
    match p
    case Hit(i) => if i < |l.cache| then MoveToFront(l.cache, i) else l.cache
    case Stale(i) => if i < |l.cache| then Evict(l.cache, i) else l.cache
    case Fetched(seg) =>
      if seg != 0 && |l.cache| > 0 then Push(l.cache, Used(PageBase(addr), PageBase(addr) + PAGE_SIZE, seg, l.leaf))
      else l.cache
  }

  function WidenTop(desc: Descriptors, es: seq<Entry<Handle>>, seg: nat): seq<Entry<Handle>> {
    if seg != 0 && seg in desc && |es| > 0 then Widen(es, desc[seg].base, desc[seg].size, seg) else es
  }

  function CacheAfter(desc: Descriptors, l: Local): seq<Entry<Handle>> {
    match l.pc
    case Inserting(_, _) => AllVacant()
    case Clearing(_, _) => AllVacant()
    case Settling(addr, _, _, probe) => SettleCache(l, addr, probe)
    case Widening(_, goal, _, answer) => WidenTop(desc, l.cache, if goal.ForFind? then answer else goal.seg)
    case _ => l.cache
  }

  /** A step of the registry's own code, outside the trie. Only a cached lookup reads shared memory. */
  function LocalAfter(s: State, l: Local, c: Reg.Choice): Local {
    var pc' := match l.pc
               case Looking(addr, goal, gone) =>
                 Reg.Settling(addr, goal, gone, ProbeCached(s.trie.tree.nodes, l.cache, addr))
               case _ => Reg.PcAfter(Abs(s), Reg.Thread(AbsCache(l.cache), l.pc), c);
    Local(CacheAfter(s.desc, l), pc', l.leaf)
  }

  /** The registry's step that an operation's atomic effect amounts to. */
  function EffectChoice(at: Trie.Pc): Reg.Choice {
    if at.Leaving? && at.result.Dropped? then Reg.NoMemory else Reg.Go
  }

  ghost function Act(s: State, l: Label): State
    requires Enabled(s, l)
  {
    var t, at, mine := l.thread, Trie.PcOf(s.trie, l.thread), LocalOf(s, l.thread);
    if l.choice.InTrie? then
      var trie' := Trie.Act(s.trie, Trie.Label(t, l.choice.step));
      var at' := Trie.PcOf(trie', t);
      State(s.desc, trie', s.life,
            s.locals[t := if at.Leaving? then Returned(mine, at) else mine],
            if at'.Leaving? then Reg.CleanAfter(Abs(s), mine.pc, EffectChoice(at')) else s.clean)
    else
      var c := l.choice.choice;
      State(s.desc, s.trie, Reg.LifeAfter(Abs(s), mine.pc, c), s.locals[t := LocalAfter(s, mine, c)],
            Reg.CleanAfter(Abs(s), mine.pc, c))
  }

  ghost predicate Init(s: State) {
    && Trie.Init(s.trie) && s.life == map[] && s.locals == map[] && s.clean
    && Reg.EndsBelow(s.desc) && forall seg :: seg in s.desc ==> Aligned(seg)
  }

  ghost predicate StepsAt(run: seq<State>, labels: seq<Label>, i: nat) {
    i + 1 < |run| && i < |labels| && Enabled(run[i], labels[i]) && run[i + 1] == Act(run[i], labels[i])
  }

  ghost predicate IsRun(run: seq<State>, labels: seq<Label>) {
    && |run| == |labels| + 1 && Init(run[0])
    && forall i {:trigger StepsAt(run, labels, i)} :: 0 <= i < |labels| ==> StepsAt(run, labels, i)
  }

  // ---- the invariant ----

  /** The slot is the leaf slot of its key. */
  predicate HandleOk(t: Tree, h: Handle) {
    h.key < KEYS && LeafPath(h.key) in t.at && h.slot == LeafSlot(t, h.key)
  }

  predicate HandlesOk(t: Tree, es: seq<Entry<Handle>>) {
    forall i :: 0 <= i < |es| && es[i].Used? ==> HandleOk(t, es[i].leaf)
  }

  /** The slot kept from a traversal is the one of the page looked up. */
  predicate LeafOk(t: Tree, l: Local) {
    l.pc.Settling? && l.pc.probe.Fetched? && l.pc.probe.seg != 0 ==>
      HandleOk(t, l.leaf) && l.leaf.key == Key(PageOf(l.pc.addr))
  }

  /** A thread inside the trie is there for the call its code makes, and leaves with a fitting result. */
  predicate CallOk(desc: Descriptors, l: Local, at: Trie.Pc) {
    && (!at.Outside? ==> NextCall(desc, l) == Some(at.op))
    && (at.Leaving? && at.op.Lookup? ==> at.result.Found?)
  }

  ghost predicate LocalOk(s: State, t: nat) {
    var l := LocalOf(s, t);
    HandlesOk(s.trie.tree, l.cache) && LeafOk(s.trie.tree, l) && CallOk(s.desc, l, Trie.PcOf(s.trie, t))
  }

  ghost predicate Inv(s: State) {
    && Trie.Inv(s.trie) && (forall seg :: seg in s.desc ==> Aligned(seg))
    && forall t {:trigger LocalOk(s, t)} :: LocalOk(s, t)
  }

  // ---- caches and slots ----

  lemma SameCover(es: seq<Entry<Handle>>, addr: nat)
    ensures FirstCover(AbsCache(es), addr, 0) == FirstCover(es, addr, 0)
  {
    var i, j := FirstCover(es, addr, 0), FirstCover(AbsCache(es), addr, 0);
    assert forall k :: 0 <= k < |es| ==> Covers(AbsCache(es)[k], addr) == Covers(es[k], addr);
  }

  /** Reading a cached slot is reading the mapping at its key. */
  lemma SlotReadsKey(t: Tree, h: Handle, seg: nat)
    requires WellFormed(t) && HandleOk(t, h)
    ensures Load(t.nodes, h.slot) == Tag(seg) <==> Get(Contents(t), h.key) == seg
  {
    KeyOfSmall(h.key);
    RawIsLeafWord(t, h.key);
    ContentsAt(t, h.key);
  }

  lemma ProbeMatches(t: Tree, es: seq<Entry<Handle>>, addr: nat)
    requires WellFormed(t) && HandlesOk(t, es) && FirstCover(es, addr, 0) < |es|
    ensures ProbeCached(t.nodes, es, addr) == ProbeAt(AbsCache(es), Contents(t), addr)
  {
    var i := FirstCover(es, addr, 0);
    SameCover(es, addr);
    SlotReadsKey(t, es[i].leaf, es[i].seg);
  }

  lemma SettleMatches(l: Local, addr: nat, p: Probe)
    requires p.Fetched? && p.seg != 0 ==> l.leaf.key == Key(PageOf(addr))
    ensures AbsCache(SettleCache(l, addr, p)) == Settle(AbsCache(l.cache), addr, p)
  {
    match p
    case Hit(i) => if i < |l.cache| { assert AbsCache(MoveToFront(l.cache, i)) == MoveToFront(AbsCache(l.cache), i); }
    case Stale(i) => if i < |l.cache| { assert AbsCache(Evict(l.cache, i)) == Evict(AbsCache(l.cache), i); }
    case Fetched(seg) =>
      if seg != 0 && |l.cache| > 0 {
        var e := Used(PageBase(addr), PageBase(addr) + PAGE_SIZE, seg, l.leaf);
        assert AbsCache(Push(l.cache, e)) == Push(AbsCache(l.cache), AbsEntry(e));
      }
  }

  lemma WidenMatches(desc: Descriptors, es: seq<Entry<Handle>>, seg: nat)
    ensures AbsCache(WidenTop(desc, es, seg)) == WidenFound(desc, AbsCache(es), seg)
  {
  }

  lemma VacantMatches()
    ensures AbsCache(AllVacant()) == AllVacant()
  {
  }

  // ---- one step ----

  lemma AbsThreadOf(s: State, t: nat)
    requires LocalOk(s, t)
    ensures Reg.ThreadOf(Abs(s), t) == AbsThread(LocalOf(s, t), Trie.PcOf(s.trie, t))
  {
    VacantMatches();
  }

  lemma HandlesPersist(t: Tree, t': Tree, own: set<Addr>, l: Local)
    requires TreeGrows(t, t', own) && HandlesOk(t, l.cache) && LeafOk(t, l)
    ensures HandlesOk(t', l.cache) && LeafOk(t', l)
  {
    forall h | HandleOk(t, h) ensures HandleOk(t', h) {
      assert t'.at[LeafPath(h.key)] == t.at[LeafPath(h.key)];
    }
  }

  /** A leaf slot belongs to the key of its page. */
  lemma SlotOfKey(t: Tree, page: nat)
    requires LeafPath(page) in t.at
    ensures HandleOk(t, Handle(LeafSlot(t, page), Key(page)))
  {
    KeyOfSmall(Key(page));
    PathIdentifiesKey(page, Key(page));
    assert LeafPath(Key(page)) == LeafPath(page) && LeafIdx(Key(page)) == LeafIdx(page);
  }

  /** Where a trie step takes the thread. */
  lemma TrieStepFacts(s: State, l: Label)
    requires Inv(s) && Enabled(s, l) && l.choice.InTrie?
    ensures var at, at' := Trie.PcOf(s.trie, l.thread), Trie.PcOf(Act(s, l).trie, l.thread);
            var mine, t, t' := LocalOf(s, l.thread), s.trie.tree, Act(s, l).trie.tree;
            && Trie.Inv(Act(s, l).trie) && TreeGrows(t, t', Trie.Held(at)) && l.thread in s.locals
            && (at.Leaving? <==> at'.Outside?)
            && (!at.Leaving? ==> NextCall(s.desc, mine) == Some(at'.op))
            && (at'.Leaving? ==> !at.Outside? && TakesEffect(Contents(t), at'.op, l.choice.step == Trie.Heap(0),
                                                             Contents(t'), at'.result))
            && (!at'.Leaving? ==> Contents(t') == Contents(t) && l.choice.step != Trie.Heap(0))
  {
    var tl := Trie.Label(l.thread, l.choice.step);
    var at := Trie.PcOf(s.trie, l.thread);
    assert LocalOk(s, l.thread);
    Trie.StepKeepsInv(s.trie, tl);
    Trie.TreeStep(s.trie.tree, at, l.choice.step);
  }

  lemma ReturnedOk(s: State, t: nat)
    requires Inv(s) && Trie.PcOf(s.trie, t).Leaving?
    ensures LeafOk(s.trie.tree, Returned(LocalOf(s, t), Trie.PcOf(s.trie, t)))
  {
    var at, mine := Trie.PcOf(s.trie, t), LocalOf(s, t);
    assert LocalOk(s, t) && Trie.Sound(s.trie.tree, at);
    if mine.pc.Looking? && at.result.value != 0 {
      SlotOfKey(s.trie.tree, at.op.page);
    }
  }

  lemma TrieStepKeepsInv(s: State, l: Label)
    requires Inv(s) && Enabled(s, l) && l.choice.InTrie?
    ensures Inv(Act(s, l))
  {
    var s', t := Act(s, l), l.thread;
    var at := Trie.PcOf(s.trie, t);
    TrieStepFacts(s, l);
    if at.Leaving? {
      ReturnedOk(s, t);
    }
    forall u ensures LocalOk(s', u) {
      assert LocalOk(s, u);
      HandlesPersist(s.trie.tree, s'.trie.tree, Trie.Held(at), LocalOf(s, u));
      if u == t && at.Leaving? {
        HandlesPersist(s.trie.tree, s'.trie.tree, Trie.Held(at), Returned(LocalOf(s, t), at));
      }
    }
  }

  lemma CacheKeepsHandles(t: Tree, desc: Descriptors, l: Local)
    requires HandlesOk(t, l.cache) && LeafOk(t, l)
    ensures HandlesOk(t, CacheAfter(desc, l))
  {
  }

  /** The thread's own state after a step outside the trie. */
  lemma LocalStaysOk(s: State, l: Label)
    requires LocalOk(s, l.thread) && Enabled(s, l) && l.choice.InRegistry?
    ensures LocalOk(Act(s, l), l.thread)
  {
    CacheKeepsHandles(s.trie.tree, s.desc, LocalOf(s, l.thread));
  }

  lemma LocalStepKeepsInv(s: State, l: Label)
    requires Inv(s) && Enabled(s, l) && l.choice.InRegistry?
    ensures Inv(Act(s, l))
  {
    assert LocalOk(s, l.thread);
    LocalStaysOk(s, l);
    forall u | u != l.thread ensures LocalOk(Act(s, l), u) {
      assert LocalOk(s, u);
    }
  }

  lemma StepKeepsInv(s: State, l: Label)
    requires Inv(s) && Enabled(s, l)
    ensures Inv(Act(s, l))
  {
    if l.choice.InTrie? {
      TrieStepKeepsInv(s, l);
    } else {
      LocalStepKeepsInv(s, l);
    }
  }

  // ---- refinement ----

  /** The step of the registry that a step of this machine amounts to; `Stutter` for none. */
  datatype Visible = Stutter | Makes(made: Reg.Label)

  function Seen(s: State, l: Label): Visible
    requires Enabled(s, l)
  {
    if l.choice.InRegistry? then Makes(Reg.Label(l.thread, l.choice.choice))
    else
      var at' := Trie.PcOf(Trie.Act(s.trie, Trie.Label(l.thread, l.choice.step)), l.thread);
      if at'.Leaving? then Makes(Reg.Label(l.thread, EffectChoice(at'))) else Stutter
  }

  ghost predicate Follows(r: Reg.Registry, v: Visible, r': Reg.Registry) {
    match v
    case Stutter => r' == r
    case Makes(made) => Reg.Enabled(r, made) && r' == Reg.Act(r, made)
  }

  /** The parts of the abstract state that only the stepping thread's local state can change. */
  lemma AbsThreads(s: State, s': State, t: nat, mine': Local)
    requires s'.locals == s.locals[t := mine']
    requires forall u :: u != t ==> Trie.PcOf(s'.trie, u) == Trie.PcOf(s.trie, u)
    ensures Abs(s').threads == Abs(s).threads[t := AbsThread(mine', Trie.PcOf(s'.trie, t))]
  {
  }

  /** Calling, descending and returning are invisible in the thread's own state and in the mapping. */
  lemma SilentLocal(s: State, l: Label)
    requires Inv(s) && Enabled(s, l) && Seen(s, l).Stutter?
    ensures var s', t := Act(s, l), l.thread;
            && t in s.locals && t in s'.locals && Contents(s'.trie.tree) == Contents(s.trie.tree) && s'.clean == s.clean
            && AbsThread(s'.locals[t], Trie.PcOf(s'.trie, t)) == AbsThread(s.locals[t], Trie.PcOf(s.trie, t))
  {
    TrieStepFacts(s, l);
    assert LocalOk(s, l.thread);
  }

  /** What a trie step leaves alone. */
  lemma TrieStepFrame(s: State, l: Label)
    requires Enabled(s, l) && l.choice.InTrie?
    ensures var s', t := Act(s, l), l.thread;
            && s'.desc == s.desc && s'.life == s.life && t in s'.locals && s'.locals == s.locals[t := s'.locals[t]]
            && forall u :: u != t ==> Trie.PcOf(s'.trie, u) == Trie.PcOf(s.trie, u)
  {
  }

  lemma SilentStep(s: State, l: Label)
    requires Inv(s) && Enabled(s, l) && Seen(s, l).Stutter?
    ensures Abs(Act(s, l)) == Abs(s)
  {
    var s', t := Act(s, l), l.thread;
    SilentLocal(s, l);
    TrieStepFrame(s, l);
    assert Abs(s').threads == Abs(s).threads by {
      AbsThreads(s, s', t, s'.locals[t]);
    }
  }

  /** What the effect of an operation does to the thread and to the mapping is what the registry's step does. */
  lemma EffectMatches(r: Reg.Registry, mine: Local, at: Trie.Pc, refused: bool, m: map<nat, nat>)
    requires at.Leaving? && NextCall(r.desc, mine) == Some(at.op) && TakesEffect(r.m, at.op, refused, m, at.result)
    ensures var c, th := EffectChoice(at), Reg.Thread(AbsCache(mine.cache), mine.pc);
            && AbsPc(mine.pc, at) == Reg.PcAfter(r, th, c) && m == Reg.MapAfter(r, mine.pc, c)
            && (mine.pc.Inserting? || mine.pc.Clearing? || mine.pc.Looking?) && !Reg.LoopDone(r, mine.pc)
  {
    if mine.pc.Looking? {
      SameCover(mine.cache, mine.pc.addr);
    }
  }

  /** The atomic effect of a trie operation is the registry's step. */
  lemma EffectStep(s: State, l: Label)
    requires Inv(s) && Enabled(s, l) && l.choice.InTrie? && Seen(s, l).Makes?
    ensures Follows(Abs(s), Seen(s, l), Abs(Act(s, l)))
  {
    var s', t := Act(s, l), l.thread;
    var mine := LocalOf(s, t);
    TrieStepFacts(s, l);
    TrieStepFrame(s, l);
    assert AbsPc(mine.pc, Trie.PcOf(s.trie, t)) == mine.pc;
    AbsThreadOf(s, t);
    EffectMatches(Abs(s), mine, Trie.PcOf(s'.trie, t), l.choice.step == Trie.Heap(0), Contents(s'.trie.tree));
    AbsThreads(s, s', t, mine);
  }

  lemma LocalCacheMatches(s: State, t: nat)
    requires Inv(s) && Trie.PcOf(s.trie, t).Outside? && NextCall(s.desc, LocalOf(s, t)).None?
    ensures AbsCache(CacheAfter(s.desc, LocalOf(s, t))) == Reg.OwnCacheAfter(Abs(s), Reg.ThreadOf(Abs(s), t))
  {
    var mine := LocalOf(s, t);
    AbsThreadOf(s, t);
    assert LocalOk(s, t);
    match mine.pc
    case Inserting(_, _) => VacantMatches();
    case Clearing(_, _) => VacantMatches();
    case Settling(addr, _, _, probe) => SettleMatches(mine, addr, probe);
    case Widening(_, goal, _, answer) => WidenMatches(s.desc, mine.cache, if goal.ForFind? then answer else goal.seg);
    case _ =>
  }

  lemma LocalPcMatches(s: State, t: nat, c: Reg.Choice)
    requires WellFormed(s.trie.tree) && HandlesOk(s.trie.tree, LocalOf(s, t).cache)
    requires NextCall(s.desc, LocalOf(s, t)).None?
    ensures var mine := LocalOf(s, t);
            LocalAfter(s, mine, c).pc == Reg.PcAfter(Abs(s), Reg.Thread(AbsCache(mine.cache), mine.pc), c)
  {
    var mine := LocalOf(s, t);
    if mine.pc.Looking? {
      ProbeMatches(s.trie.tree, mine.cache, mine.pc.addr);
    }
  }

  lemma LocalStep(s: State, l: Label)
    requires Inv(s) && Enabled(s, l) && l.choice.InRegistry?
    ensures Follows(Abs(s), Seen(s, l), Abs(Act(s, l)))
  {
    var t, c := l.thread, l.choice.choice;
    assert LocalOk(s, t);
    AbsThreadOf(s, t);
    LocalCacheMatches(s, t);
    LocalPcMatches(s, t, c);
    AbsThreads(s, Act(s, l), t, LocalAfter(s, LocalOf(s, t), c));
  }

  /** Every step is a step of the registry over an atomic map by the same thread, or invisible. */
  lemma StepRefines(s: State, l: Label)
    requires Inv(s) && Enabled(s, l)
    ensures Follows(Abs(s), Seen(s, l), Abs(Act(s, l)))
  {
    if l.choice.InRegistry? {
      LocalStep(s, l);
    } else if Seen(s, l).Makes? {
      EffectStep(s, l);
    } else {
      SilentStep(s, l);
    }
  }

  lemma InitHolds(s: State)
    requires Init(s)
    ensures Inv(s) && Reg.Init(Abs(s))
  {
    Trie.InitHolds(s.trie);
  }

  lemma {:induction false} RunKeepsInv(run: seq<State>, labels: seq<Label>, i: nat)
    requires IsRun(run, labels) && i < |run|
    ensures Inv(run[i])
  {
    if i == 0 {
      InitHolds(run[0]);
    } else {
      RunKeepsInv(run, labels, i - 1);
      assert StepsAt(run, labels, i - 1);
      StepKeepsInv(run[i - 1], labels[i - 1]);
    }
  }

  ghost predicate StateTracked(run: seq<State>, spec: seq<Reg.Registry>, at: seq<nat>, i: nat) {
    i < |run| && i < |at| && at[i] < |spec| && spec[at[i]] == Abs(run[i])
  }

  ghost predicate StepTracked(run: seq<State>, labels: seq<Label>, steps: seq<Reg.Label>, at: seq<nat>, i: nat) {
    && i < |run| && i < |labels| && i + 1 < |at| && Enabled(run[i], labels[i])
    && match Seen(run[i], labels[i])
       case Stutter => at[i + 1] == at[i]
       case Makes(made) => at[i + 1] == at[i] + 1 && at[i] < |steps| && steps[at[i]] == made
  }

  /** `at[i]` is the place in the registry's run that state i stands for. */
  ghost predicate Tracks(run: seq<State>, labels: seq<Label>, spec: seq<Reg.Registry>, steps: seq<Reg.Label>,
                         at: seq<nat>)
  {
    && at != [] && at[0] == 0 && at[|at| - 1] == |spec| - 1
    && (forall i {:trigger StateTracked(run, spec, at, i)} :: 0 <= i < |at| ==> StateTracked(run, spec, at, i))
    && (forall i {:trigger StepTracked(run, labels, steps, at, i)} ::
          0 <= i < |at| - 1 ==> StepTracked(run, labels, steps, at, i))
  }

  lemma TracksMore(run: seq<State>, labels: seq<Label>, spec: seq<Reg.Registry>, steps: seq<Reg.Label>, at: seq<nat>,
                   spec': seq<Reg.Registry>, steps': seq<Reg.Label>, next: nat)
    requires Tracks(run, labels, spec, steps, at) && spec <= spec' && steps <= steps' && next == |spec'| - 1
    requires StateTracked(run, spec', at + [next], |at|) && StepTracked(run, labels, steps', at + [next], |at| - 1)
    ensures Tracks(run, labels, spec', steps', at + [next])
  {
    var at' := at + [next];
    forall i: nat | i < |at'| ensures StateTracked(run, spec', at', i) {
      assert i < |at| ==> StateTracked(run, spec, at, i);
    }
    forall i: nat | i < |at'| - 1 ensures StepTracked(run, labels, steps', at', i) {
      assert i < |at| - 1 ==> StepTracked(run, labels, steps, at, i);
    }
  }

  lemma ExtendSpec(spec: seq<Reg.Registry>, steps: seq<Reg.Label>, made: Reg.Label, r: Reg.Registry)
    requires Reg.IsRun(spec, steps) && Reg.Enabled(spec[|spec| - 1], made) && r == Reg.Act(spec[|spec| - 1], made)
    ensures Reg.IsRun(spec + [r], steps + [made])
  {
    forall i: nat | i < |steps + [made]| ensures Reg.StepsAt(spec + [r], steps + [made], i) {
      assert i < |steps| ==> Reg.StepsAt(spec, steps, i);
    }
  }

  lemma RunRefines(run: seq<State>, labels: seq<Label>, i: nat)
    requires IsRun(run, labels) && i < |labels|
    ensures Enabled(run[i], labels[i]) && Follows(Abs(run[i]), Seen(run[i], labels[i]), Abs(run[i + 1]))
  {
    assert StepsAt(run, labels, i);
    RunKeepsInv(run, labels, i);
    StepRefines(run[i], labels[i]);
  }

  lemma TracksStep(run: seq<State>, labels: seq<Label>, spec: seq<Reg.Registry>, steps: seq<Reg.Label>, at: seq<nat>)
    returns (spec': seq<Reg.Registry>, steps': seq<Reg.Label>, at': seq<nat>)
    requires |run| == |labels| + 1 && at != [] && |at| <= |labels| && Enabled(run[|at| - 1], labels[|at| - 1])
    requires Follows(Abs(run[|at| - 1]), Seen(run[|at| - 1], labels[|at| - 1]), Abs(run[|at|]))
    requires Reg.IsRun(spec, steps) && Tracks(run, labels, spec, steps, at)
    ensures Reg.IsRun(spec', steps') && |at'| == |at| + 1 && Tracks(run, labels, spec', steps', at')
  {
    var n := |at| - 1;
    assert StateTracked(run, spec, at, n);
    match Seen(run[n], labels[n])
    case Stutter =>
      spec', steps', at' := spec, steps, at + [|spec| - 1];
      TracksMore(run, labels, spec, steps, at, spec', steps', |spec| - 1);
    case Makes(made) =>
      ExtendSpec(spec, steps, made, Abs(run[n + 1]));
      spec', steps', at' := spec + [Abs(run[n + 1])], steps + [made], at + [|spec|];
      TracksMore(run, labels, spec, steps, at, spec', steps', |spec|);
  }

  /** Refinement: every run of the registry over the real trie, with any number of threads, is a run of the
      registry over an atomic map, step for step except for invisible steps inside the trie. */
  lemma {:induction false} Refines(run: seq<State>, labels: seq<Label>, n: nat)
    returns (spec: seq<Reg.Registry>, steps: seq<Reg.Label>, at: seq<nat>)
    requires IsRun(run, labels) && n < |run|
    ensures Reg.IsRun(spec, steps) && |at| == n + 1 && Tracks(run, labels, spec, steps, at)
  {
    if n == 0 {
      InitHolds(run[0]);
      spec, steps, at := [Abs(run[0])], [], [0];
      assert StateTracked(run, spec, at, 0);
    } else {
      spec, steps, at := Refines(run, labels, n - 1);
      RunRefines(run, labels, n - 1);
      spec, steps, at := TracksStep(run, labels, spec, steps, at);
    }
  }

  // ---- what carries over ----

  lemma {:induction false} PlacesAscend(run: seq<State>, labels: seq<Label>, spec: seq<Reg.Registry>,
                                        steps: seq<Reg.Label>, at: seq<nat>, i: nat, j: nat)
    requires Tracks(run, labels, spec, steps, at) && i <= j < |at|
    ensures at[i] <= at[j]
  {
    if i < j {
      PlacesAscend(run, labels, spec, steps, at, i, j - 1);
      assert StepTracked(run, labels, steps, at, j - 1);
    }
  }

  /** No place of the registry's run is skipped. */
  lemma {:induction false} PlaceReached(run: seq<State>, labels: seq<Label>, spec: seq<Reg.Registry>,
                                        steps: seq<Reg.Label>, at: seq<nat>, i: nat, j: nat, x: nat) returns (y: nat)
    requires Tracks(run, labels, spec, steps, at) && i <= j < |at| && at[i] <= x <= at[j]
    ensures i <= y <= j && at[y] == x
  {
    if x == at[j] {
      y := j;
    } else {
      assert StepTracked(run, labels, steps, at, j - 1);
      y := PlaceReached(run, labels, spec, steps, at, i, j - 1, x);
    }
  }

  /** A thread outside the trie stands where its registry thread stands; inside, that one is not out either. */
  lemma SamePlace(run: seq<State>, labels: seq<Label>, spec: seq<Reg.Registry>, steps: seq<Reg.Label>, at: seq<nat>,
                  y: nat, t: nat)
    requires IsRun(run, labels) && Tracks(run, labels, spec, steps, at) && y < |at|
    ensures y < |run| && at[y] < |spec| && spec[at[y]].life == run[y].life
    ensures var pc, pc' := LocalOf(run[y], t).pc, Reg.ThreadOf(spec[at[y]], t).pc;
            (pc.Out? <==> pc'.Out?) && (pc.Returning? ==> pc' == pc)
  {
    assert StateTracked(run, spec, at, y);
    RunKeepsInv(run, labels, y);
    assert LocalOk(run[y], t);
    AbsThreadOf(run[y], t);
  }

  /** Over the real trie too: after unregister_segment(seg) has returned (state i), no find called later (step j)
      by any thread returns seg (state k). */
  lemma UnregisteredStaysGone(run: seq<State>, labels: seq<Label>, i: nat, j: nat, k: nat, t: nat, seg: nat)
    requires IsRun(run, labels) && i <= j < k < |run| && seg in run[i].life && run[i].life[seg].Retired?
    requires LocalOf(run[j], t).pc.Out?
    requires labels[j].thread == t && labels[j].choice.InRegistry? && labels[j].choice.choice.Find?
    requires forall y :: j < y <= k ==> !LocalOf(run[y], t).pc.Out?
    requires LocalOf(run[k], t).pc.Returning?
    ensures LocalOf(run[k], t).pc.answer != seg
  {
    var spec, steps, at := Refines(run, labels, k);
    assert StepTracked(run, labels, steps, at, j);
    PlacesAscend(run, labels, spec, steps, at, i, j);
    PlacesAscend(run, labels, spec, steps, at, j + 1, k);
    SamePlace(run, labels, spec, steps, at, i, t);
    SamePlace(run, labels, spec, steps, at, j, t);
    SamePlace(run, labels, spec, steps, at, k, t);
    forall x | at[j] < x <= at[k] ensures !Reg.ThreadOf(spec[x], t).pc.Out? {
      var y := PlaceReached(run, labels, spec, steps, at, j, k, x);
      SamePlace(run, labels, spec, steps, at, y, t);
    }
    Reg.UnregisteredStaysGone(spec, steps, at[i], at[j], at[k], t, seg);
  }
}
